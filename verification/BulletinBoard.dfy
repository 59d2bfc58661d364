/** HW1's bulletin board over values: which slot a post goes to, what a pull
    sends, and what the client prints for it. */
module BulletinBoard {

  const RECORD_NUM: nat := 10
  const FROM_LEN: nat := 5
  const CONTENT_LEN: nat := 20

  /** The two C strings a record holds. */
  datatype Record = Record(from: string, content: string)

  const EMPTY: Record := Record("", "")

  // ------------------------------------------------------------------- posting

  /** `last` counts on past the slot numbers; slot `last % RECORD_NUM` was used last. */
  datatype Board = Board(last: int, slots: seq<Record>)

  /** A server that has just opened the record file `file`. */
  function NewBoard(file: seq<Record>): Board {
    Board(-1, file)
  }

  ghost predicate WellFormed(b: Board) {
    b.last >= -1 && |b.slots| == RECORD_NUM
  }

  /** The slot a running count stands for. */
  function Slot(i: int): int {
    i % RECORD_NUM
  }

  /** The first count from `i` on whose slot is not locked, or `stop`. */
  function FirstFree(i: int, stop: int, locked: set<int>): (r: int)
    requires i <= stop
    ensures i <= r <= stop
    ensures forall k :: i <= k < r ==> Slot(k) in locked
    ensures r < stop ==> Slot(r) !in locked
    decreases stop - i
  {
    if i == stop || Slot(i) !in locked then i else FirstFree(i + 1, stop, locked)
  }

  /** Where the search from `last` ends; `last + RECORD_NUM + 1` if all are locked. */
  function Choice(last: int, locked: set<int>): int {
    FirstFree(last + 1, last + RECORD_NUM + 1, locked)
  }

  /** A post while others hold locks on `locked`. With every slot locked it
      overwrites slot 0 and leaves `last` alone. */
  function PostTo(b: Board, r: Record, locked: set<int>): Board
    requires WellFormed(b)
    ensures WellFormed(PostTo(b, r, locked))
  {
    var i := Choice(b.last, locked);
    if i <= b.last + RECORD_NUM then Board(i, b.slots[Slot(i) := r])
    else b.(slots := b.slots[0 := r])
  }

  /** The posts of one server, one after the other, without foreign locks. */
  function PostAll(file: seq<Record>, posts: seq<Record>): (b: Board)
    requires |file| == RECORD_NUM
    ensures WellFormed(b)
  {
    if posts == [] then NewBoard(file)
    else PostTo(PostAll(file, posts[..|posts| - 1]), posts[|posts| - 1], {})
  }

  /** The search reaches every slot: it fails only if all are locked. */
  lemma SearchCovers(last: int, locked: set<int>, slot: int)
    requires last >= -1 && 0 <= slot < RECORD_NUM && slot !in locked
    ensures Choice(last, locked) <= last + RECORD_NUM
  {
    var i := last + 1 + (slot - last - 1) % RECORD_NUM;
    assert Slot(i) == slot;
  }

  /** A post never touches a locked slot while another one is free, writes one
      slot only, and writes the first free one after the last used. */
  lemma PostRespectsLocks(b: Board, r: Record, locked: set<int>)
    requires WellFormed(b)
    requires exists j :: 0 <= j < RECORD_NUM && j !in locked
    ensures var b' := PostTo(b, r, locked);
            && WellFormed(b')
            && 1 <= b'.last - b.last <= RECORD_NUM
            && Slot(b'.last) !in locked
            && b'.slots == b.slots[Slot(b'.last) := r]
            && (forall k :: b.last < k < b'.last ==> Slot(k) in locked)
  {
    var j :| 0 <= j < RECORD_NUM && j !in locked;
    SearchCovers(b.last, locked, j);
  }

  /** With every slot locked a post overwrites slot 0 all the same. */
  lemma AllLockedOverwrites(b: Board, r: Record, locked: set<int>)
    requires WellFormed(b) && forall j :: 0 <= j < RECORD_NUM ==> j in locked
    ensures PostTo(b, r, locked) == b.(slots := b.slots[0 := r])
  {
    assert Slot(Choice(b.last, locked)) in locked;
  }

  ghost predicate LockedUntouched(b: Board, b': Board, locked: set<int>)
    requires WellFormed(b) && WellFormed(b')
  {
    forall j :: 0 <= j < RECORD_NUM && j in locked ==> b'.slots[j] == b.slots[j]
  }

  /** A post of a new record leaves all locked slots alone exactly when some slot
      is not locked. */
  lemma LocksRespectedIff(b: Board, r: Record, locked: set<int>)
    requires WellFormed(b) && r !in b.slots
    ensures LockedUntouched(b, PostTo(b, r, locked), locked) <==> exists j :: 0 <= j < RECORD_NUM && j !in locked
  {
    if exists j :: 0 <= j < RECORD_NUM && j !in locked {
      PostRespectsLocks(b, r, locked);
    } else {
      AllLockedOverwrites(b, r, locked);
      assert b.slots[0] in b.slots;
    }
  }

  /** The latest of the posts 0 .. n-1 whose index is `j` modulo the slot count. */
  function Latest(n: nat, j: nat): int
    requires j < RECORD_NUM
  {
    n - 1 - (n - 1 - j) % RECORD_NUM
  }

  /** Without foreign locks slot `j` holds the latest post congruent to `j`, and
      its old record while there is none. */
  lemma {:induction false} RoundRobin(file: seq<Record>, posts: seq<Record>, j: nat)
    requires |file| == RECORD_NUM && j < RECORD_NUM
    ensures PostAll(file, posts).last == |posts| - 1
    ensures j < |posts| ==> 0 <= Latest(|posts|, j) < |posts| && Latest(|posts|, j) % RECORD_NUM == j
    ensures PostAll(file, posts).slots[j] == if j < |posts| then posts[Latest(|posts|, j)] else file[j]
  {
    if posts != [] {
      var n := |posts| - 1;
      RoundRobin(file, posts[..n], j);
      assert Choice(n - 1, {}) == n;
      LatestStep(n, j);
    }
  }

  lemma LatestStep(n: nat, j: nat)
    requires j < RECORD_NUM
    ensures Latest(n + 1, j) == if n % RECORD_NUM == j then n else Latest(n, j)
    ensures j < n + 1 ==> 0 <= Latest(n + 1, j) < n + 1 && Latest(n + 1, j) % RECORD_NUM == j
    ensures n < j ==> n % RECORD_NUM != j
  {
    SameSlot(n, j);
    NextRemainder(n - j);
    if j <= n { SlotOfLatest(n, j); }
  }

  lemma SameSlot(n: nat, j: nat)
    requires j < RECORD_NUM
    ensures (n - j) % RECORD_NUM == 0 <==> n % RECORD_NUM == j
    ensures n < j ==> n % RECORD_NUM != j
  {
  }

  lemma NextRemainder(a: int)
    ensures a % RECORD_NUM != 0 ==> a % RECORD_NUM == (a - 1) % RECORD_NUM + 1
  {
  }

  lemma SlotOfLatest(n: nat, j: nat)
    requires j < RECORD_NUM && j <= n
    ensures j <= Latest(n + 1, j) <= n && Latest(n + 1, j) % RECORD_NUM == j
  {
    var a := n - j;
    assert Latest(n + 1, j) == j + RECORD_NUM * (a / RECORD_NUM);
  }

  // ------------------------------------------------------------------- pulling

  predicate Shown(r: Record) {
    r.from != "" && r.content != ""
  }

  /** The records a pull sends: unlocked slots with both fields set, in order. */
  function Visible(slots: seq<Record>, locked: set<int>): seq<Record> {
    if slots == [] then []
    else
      var n := |slots| - 1;
      Visible(slots[..n], locked) + (if n !in locked && Shown(slots[n]) then [slots[n]] else [])
  }

  /** Exactly the records of unlocked slots with both fields set are sent. */
  lemma {:induction false} SentIff(slots: seq<Record>, locked: set<int>, r: Record)
    ensures r in Visible(slots, locked) <==>
            r.from != "" && r.content != "" && exists j :: 0 <= j < |slots| && j !in locked && slots[j] == r
  {
    if slots != [] {
      var n := |slots| - 1;
      SentIff(slots[..n], locked, r);
      if j :| 0 <= j < |slots| && j !in locked && slots[j] == r { assert j < n ==> slots[..n][j] == r; }
      if j :| 0 <= j < n && j !in locked && slots[..n][j] == r { assert slots[j] == r; }
    }
  }

  /** The slots that are sent, in order. */
  function SentSlots(slots: seq<Record>, locked: set<int>): (at: seq<nat>)
    ensures forall j: nat :: j in at <==> j < |slots| && j !in locked && slots[j].from != "" && slots[j].content != ""
    ensures forall a, b :: 0 <= a < b < |at| ==> at[a] < at[b]
  {
    if slots == [] then []
    else
      var n := |slots| - 1;
      var prior := SentSlots(slots[..n], locked);
      assert forall a :: 0 <= a < |prior| ==> prior[a] in prior;
      prior + (if n !in locked && slots[n].from != "" && slots[n].content != "" then [n] else [])
  }

  ghost predicate Picked(slots: seq<Record>, at: seq<nat>, rs: seq<Record>) {
    |rs| == |at| && forall k :: 0 <= k < |at| ==> at[k] < |slots| && rs[k] == slots[at[k]]
  }

  lemma PickedSnoc(slots: seq<Record>, at: seq<nat>, rs: seq<Record>, n: nat)
    requires n < |slots| && Picked(slots[..n], at, rs)
    ensures Picked(slots, at, rs) && Picked(slots, at + [n], rs + [slots[n]])
  {
  }

  /** The records are sent in the order of their slots. */
  lemma {:induction false} SentInOrder(slots: seq<Record>, locked: set<int>)
    ensures Picked(slots, SentSlots(slots, locked), Visible(slots, locked))
  {
    if slots != [] {
      var n := |slots| - 1;
      var at, rs := SentSlots(slots[..n], locked), Visible(slots[..n], locked);
      SentInOrder(slots[..n], locked);
      PickedSnoc(slots, at, rs, n);
      assert at + [] == at && rs + [] == rs;
    }
  }

  /** A record with an empty sender or text takes its slot as if it were blank. */
  lemma {:induction false} EmptyFieldHides(slots: seq<Record>, j: nat, r: Record, locked: set<int>)
    requires j < |slots| && (r.from == "" || r.content == "")
    ensures Visible(slots[j := r], locked) == Visible(slots[j := EMPTY], locked)
  {
    var n := |slots| - 1;
    if j < n {
      EmptyFieldHides(slots[..n], j, r, locked);
      assert slots[j := r][..n] == slots[..n][j := r] && slots[j := EMPTY][..n] == slots[..n][j := EMPTY];
    } else {
      assert slots[j := r][..n] == slots[j := EMPTY][..n];
    }
  }

  function Starred(r: Record): string {
    r.from + "*" + r.content + "*"
  }

  function PullBody(rs: seq<Record>): string {
    if rs == [] then "" else Starred(rs[0]) + PullBody(rs[1..])
  }

  function PullText(rs: seq<Record>): string {
    "'" + PullBody(rs)
  }

  lemma {:induction false} BodySnoc(rs: seq<Record>, r: Record)
    ensures PullBody(rs + [r]) == PullBody(rs) + Starred(r)
  {
    if rs == [] {
      assert rs + [r] == [r] && [r][1..] == [];
    } else {
      BodySnoc(rs[1..], r);
      assert (rs + [r])[1..] == rs[1..] + [r];
    }
  }

  // ----------------------------------------------------------------- rendering

  function Stars(text: string): nat {
    if text == "" then 0 else Stars(text[..|text| - 1]) + (if text[|text| - 1] == '*' then 1 else 0)
  }

  /** What the rendering loop prints for the rest of the message, with `cnt` stars
      it still counts and `dir` telling a sender from a text. */
  function RenderRest(rest: string, cnt: int, dir: nat): string {
    if rest == "" || cnt <= 0 then ""
    else if rest[0] != '*' then [rest[0]] + RenderRest(rest[1..], cnt, dir)
    else if dir % 2 == 0 then "\nCONTENT:\n" + RenderRest(rest[1..], cnt - 1, dir + 1)
    else if cnt > 1 then "\nFROM: " + RenderRest(rest[1..], cnt - 1, dir + 1)
    else RenderRest(rest[1..], cnt, dir)
  }

  function Render(buf: string): string {
    var rest := if buf == "" then "" else buf[1..];
    var cnt := Stars(rest);
    if cnt > 0 then "FROM: " + RenderRest(rest, cnt, 0) + "\n" else ""
  }

  /** What a reader of the board should see. */
  function Listing(rs: seq<Record>): string {
    if rs == [] then ""
    else "FROM: " + rs[0].from + "\nCONTENT:\n" + rs[0].content + "\n" + Listing(rs[1..])
  }

  predicate StarFree(text: string) {
    '*' !in text
  }

  ghost predicate AllStarFree(rs: seq<Record>) {
    forall r :: r in rs ==> StarFree(r.from) && StarFree(r.content)
  }

  lemma {:induction false} StarsAppend(a: string, b: string)
    ensures Stars(a + b) == Stars(a) + Stars(b)
  {
    if b == "" {
      assert a + b == a;
    } else {
      var n := |b| - 1;
      StarsAppend(a, b[..n]);
      assert (a + b)[..|a| + n] == a + b[..n];
    }
  }

  lemma StarsNone(a: string)
    requires StarFree(a)
    ensures Stars(a) == 0
  {
  }

  lemma {:induction false} BodyStars(rs: seq<Record>)
    ensures Stars(PullBody(rs)) >= 2 * |rs|
    ensures AllStarFree(rs) ==> Stars(PullBody(rs)) == 2 * |rs|
  {
    if rs != [] {
      var r, rest := rs[0], PullBody(rs[1..]);
      BodyStars(rs[1..]);
      assert PullBody(rs) == r.from + ("*" + (r.content + ("*" + rest)));
      StarsAppend(r.from, "*" + (r.content + ("*" + rest)));
      StarsAppend("*", r.content + ("*" + rest));
      StarsAppend(r.content, "*" + rest);
      StarsAppend("*", rest);
      assert Stars("*") == 1;
      if AllStarFree(rs) {
        assert r in rs;
        StarsNone(r.from);
        StarsNone(r.content);
      }
    }
  }

  lemma FirstOff(a: string, b: string)
    requires a != ""
    ensures a + b == [a[0]] + (a[1..] + b)
  {
  }

  lemma Associate(a: string, b: string, c: string)
    ensures a + (b + c) == (a + b) + c
  {
  }

  /** One character of the rendering loop. */
  lemma RenderOne(c: char, rest: string, cnt: int, dir: nat)
    requires cnt > 0
    ensures RenderRest([c] + rest, cnt, dir) ==
            if c != '*' then [c] + RenderRest(rest, cnt, dir)
            else if dir % 2 == 0 then "\nCONTENT:\n" + RenderRest(rest, cnt - 1, dir + 1)
            else if cnt > 1 then "\nFROM: " + RenderRest(rest, cnt - 1, dir + 1)
            else RenderRest(rest, cnt, dir)
  {
    assert ([c] + rest)[1..] == rest;
  }

  lemma RenderChar(c: char, rest: string, cnt: int, dir: nat)
    requires c != '*' && cnt > 0
    ensures RenderRest([c] + rest, cnt, dir) == [c] + RenderRest(rest, cnt, dir)
  {
    assert ([c] + rest)[1..] == rest;
  }

  lemma {:induction false} RenderField(field: string, rest: string, cnt: int, dir: nat)
    requires StarFree(field) && cnt > 0
    ensures RenderRest(field + rest, cnt, dir) == field + RenderRest(rest, cnt, dir)
  {
    if field == "" {
      assert field + rest == rest;
    } else {
      assert field[0] in field && StarFree(field[1..]);
      RenderField(field[1..], rest, cnt, dir);
      RenderChar(field[0], field[1..] + rest, cnt, dir);
      FirstOff(field, rest);
      FirstOff(field, RenderRest(rest, cnt, dir));
    }
  }

  /** The first star of a record. */
  lemma RenderRecord(r: Record, rest: string, cnt: int, dir: nat)
    requires StarFree(r.from) && StarFree(r.content) && cnt > 1 && dir % 2 == 0
    ensures RenderRest(Starred(r) + rest, cnt, dir) ==
            r.from + ("\nCONTENT:\n" + (r.content + RenderRest("*" + rest, cnt - 1, dir + 1)))
  {
    var more := r.content + ("*" + rest);
    assert Starred(r) + rest == r.from + ("*" + more);
    RenderField(r.from, "*" + more, cnt, dir);
    RenderOne('*', more, cnt, dir);
    assert ['*'] + more == "*" + more;
    RenderField(r.content, "*" + rest, cnt - 1, dir + 1);
  }

  /** The second one, followed by the next sender or by nothing. */
  lemma RenderTail(rest: string, cnt: int, dir: nat, listing: string)
    requires cnt > 0 && dir % 2 == 1
    requires if cnt > 1 then "FROM: " + RenderRest(rest, cnt - 1, dir + 1) + "\n" == listing else rest == listing == ""
    ensures RenderRest("*" + rest, cnt, dir) + "\n" == "\n" + listing
  {
    RenderOne('*', rest, cnt, dir);
    assert ['*'] + rest == "*" + rest;
    if cnt > 1 { NextSender("\nFROM: " + RenderRest(rest, cnt - 1, dir + 1), RenderRest(rest, cnt - 1, dir + 1)); }
  }

  lemma NextSender(tail: string, more: string)
    requires tail == "\nFROM: " + more
    ensures tail + "\n" == "\n" + ("FROM: " + more + "\n")
  {
    assert "\nFROM: " == "\n" + "FROM: ";
  }

  lemma Reassociate(open: string, a: string, mid: string, b: string, tail: string, end: string, rest: string)
    requires tail + end == end + rest
    ensures open + (a + (mid + (b + tail))) + end == open + a + mid + b + end + rest
  {
    assert open + (a + (mid + (b + tail))) + end == open + a + mid + b + (tail + end);
  }

  /** What the loop prints of a record and the rest, put in order. */
  lemma RecordListed(rs: seq<Record>, printed: string, tail: string)
    requires rs != [] && printed == rs[0].from + ("\nCONTENT:\n" + (rs[0].content + tail))
    requires tail + "\n" == "\n" + Listing(rs[1..])
    ensures "FROM: " + printed + "\n" == Listing(rs)
  {
    Reassociate("FROM: ", rs[0].from, "\nCONTENT:\n", rs[0].content, tail, "\n", Listing(rs[1..]));
  }

  /** Record by record: every second star but the last opens a new sender. */
  lemma {:induction false} RenderBody(rs: seq<Record>, dir: nat)
    requires rs != [] && AllStarFree(rs) && dir % 2 == 0
    ensures "FROM: " + RenderRest(PullBody(rs), 2 * |rs|, dir) + "\n" == Listing(rs)
  {
    var rest, cnt := PullBody(rs[1..]), 2 * |rs|;
    assert rs[0] in rs;
    if |rs| > 1 { RenderBody(rs[1..], dir + 2); }
    RenderRecord(rs[0], rest, cnt, dir);
    RenderTail(rest, cnt - 1, dir + 1, Listing(rs[1..]));
    RecordListed(rs, RenderRest(PullBody(rs), cnt, dir), RenderRest("*" + rest, cnt - 1, dir + 1));
  }

  lemma {:induction false} RenderHasNoStar(rest: string, cnt: int, dir: nat)
    ensures StarFree(RenderRest(rest, cnt, dir))
    decreases |rest|
  {
    if rest != "" && cnt > 0 {
      RenderHasNoStar(rest[1..], cnt, dir);
      RenderHasNoStar(rest[1..], cnt - 1, dir + 1);
    }
  }

  lemma {:induction false} ListingHasFields(rs: seq<Record>, r: Record)
    requires r in rs && StarFree(Listing(rs))
    ensures StarFree(r.from) && StarFree(r.content)
  {
    var head := "FROM: " + rs[0].from + "\nCONTENT:\n" + rs[0].content + "\n";
    assert forall c :: c in Listing(rs[1..]) ==> c in head + Listing(rs[1..]);
    assert forall c :: c in rs[0].from ==> c in head + Listing(rs[1..]);
    assert forall c :: c in rs[0].content ==> c in head + Listing(rs[1..]);
    if r != rs[0] {
      assert r in rs[1..];
      ListingHasFields(rs[1..], r);
    }
  }

  lemma PullShows(rs: seq<Record>)
    requires AllStarFree(rs)
    ensures Render(PullText(rs)) == Listing(rs)
  {
    assert PullText(rs)[1..] == PullBody(rs);
    BodyStars(rs);
    if rs != [] { RenderBody(rs, 0); }
  }

  lemma RenderStarFree(buf: string)
    ensures StarFree(Render(buf))
  {
    var rest := if buf == "" then "" else buf[1..];
    RenderHasNoStar(rest, Stars(rest), 0);
  }

  /** The client's star-counting loop shows the server's message as the listing of
      its records exactly when no field contains the separator. */
  lemma PullRoundTrip(rs: seq<Record>)
    ensures Render(PullText(rs)) == Listing(rs) <==> AllStarFree(rs)
  {
    if AllStarFree(rs) {
      PullShows(rs);
    } else if Render(PullText(rs)) == Listing(rs) {
      RenderStarFree(PullText(rs));
      forall r | r in rs ensures StarFree(r.from) && StarFree(r.content) { ListingHasFields(rs, r); }
    }
  }
}
