/** HW1's loops over the program's own data: the server's slot search and lock
    flags, its record file and memory copy, the two parsing loops that fill
    fixed buffers, and the client's rendering loop. Each computes the function of
    `BulletinBoard`, `MemoryCopy` or `ServerRequests` that specifies it. */
module BoardPrograms {
  import opened BulletinBoard
  import opened MemoryCopy
  import opened ServerRequests
  import opened CStrings

  /** A field that fits a buffer of `size` characters and a line of its own. */
  ghost predicate Fits(field: string, size: nat) {
    |field| < size && '\n' !in field && NUL !in field
  }

  ghost predicate Postable(r: Record) {
    Fits(r.from, FROM_LEN) && Fits(r.content, CONTENT_LEN)
  }

  /** What the client sends for a post: the two lines as read. */
  function PostText(r: Record): string {
    r.from + "\n" + r.content + "\n"
  }

  datatype Message = PullMessage | CheckMessage | ExitMessage | PostMessage

  function Classify(buf: string): Message {
    if buf == "pull" then PullMessage
    else if buf == "check" then CheckMessage
    else if buf == "exit" then ExitMessage
    else PostMessage
  }

  /** No post is taken for another request. */
  lemma PostIsPost(r: Record)
    ensures PostText(r) !in ["pull", "check", "exit"]
  {
    var text := PostText(r);
    assert text[|text| - 1] == '\n';
  }

  /** Where the line that starts at `start` ends: at its newline, or with the text. */
  function LineEnd(buf: string, start: nat): (end: nat)
    requires start <= |buf|
    ensures start <= end <= |buf|
    decreases |buf| - start
  {
    if start == |buf| || buf[start] == '\n' then start else LineEnd(buf, start + 1)
  }

  function LineAt(buf: string, start: nat): string
    requires start <= |buf|
  {
    buf[start..LineEnd(buf, start)]
  }

  lemma {:induction false} LineEndIs(buf: string, start: nat)
    requires start <= |buf|
    ensures forall k :: start <= k < LineEnd(buf, start) ==> buf[k] != '\n'
    ensures LineEnd(buf, start) < |buf| ==> buf[LineEnd(buf, start)] == '\n'
    decreases |buf| - start
  {
    if start < |buf| && buf[start] != '\n' { LineEndIs(buf, start + 1); }
  }

  /** The request has a first line, and both lines fit the record. A second line
      without newline is not terminated: the text goes on with what the record
      held, `stale`, up to the next NUL there. */
  predicate Parses(buf: string, stale: seq<char>) {
    && NUL !in buf && |stale| == CONTENT_LEN
    && var j := LineEnd(buf, 0);
    && j < |buf| && j < FROM_LEN
    && var end := LineEnd(buf, j + 1);
    && var n := end - (j + 1);
    && if end < |buf| then n < CONTENT_LEN else n <= CONTENT_LEN && NUL in stale[n..]
  }

  function Parsed(buf: string, stale: seq<char>): Record
    requires Parses(buf, stale)
  {
    var j := LineEnd(buf, 0);
    Record(LineAt(buf, 0), Content(buf, j + 1, stale))
  }

  /** What the content buffer holds after the second loop. */
  function Content(buf: string, start: nat, stale: seq<char>): string
    requires start <= |buf| && (LineEnd(buf, start) == |buf| ==> |buf| - start <= |stale|)
  {
    var end := LineEnd(buf, start);
    if end < |buf| then buf[start..end] else buf[start..] + CString(stale[end - start..])
  }

  lemma {:induction false} LineEndOf(buf: string, start: nat, end: nat)
    requires start <= end < |buf| && buf[end] == '\n' && forall k :: start <= k < end ==> buf[k] != '\n'
    ensures LineEnd(buf, start) == end
    decreases end - start
  {
    if start < end { LineEndOf(buf, start + 1, end); }
  }

  /** What the client sends is parsed back to the same record. */
  lemma PostParses(r: Record, stale: seq<char>)
    requires Postable(r) && |stale| == CONTENT_LEN
    ensures Parses(PostText(r), stale) && Parsed(PostText(r), stale) == r
    ensures PostText(r) == r.from + "\n" + r.content + "\n"
  {
    var buf, j := PostText(r), |r.from|;
    PostLines(r);
    LineEndOf(buf, 0, j);
    LineEndOf(buf, j + 1, j + 1 + |r.content|);
  }

  lemma PostLines(r: Record)
    requires Postable(r)
    ensures var (buf, j) := (PostText(r), |r.from|);
            && NUL !in buf && |buf| == j + |r.content| + 2
            && buf[0..j] == r.from && buf[j] == '\n'
            && buf[j + 1..j + 1 + |r.content|] == r.content && buf[j + 1 + |r.content|] == '\n'
            && (forall k :: 0 <= k < |buf| && k != j && k != j + 1 + |r.content| ==> buf[k] != '\n')
  {
    var buf, j := PostText(r), |r.from|;
    forall k | 0 <= k < |buf| && k != j && k != j + 1 + |r.content| ensures buf[k] != '\n' {
      if k < j { assert buf[k] == r.from[k]; } else { assert buf[k] == r.content[k - j - 1]; }
    }
  }

  /** One parsing loop: copy up to the next newline and end with NUL, or copy all
      that is left and end with nothing. */
  method ParseLine(buf: string, start: nat, field: array<char>) returns (newline: nat)
    requires start <= |buf| && NUL !in buf
    requires LineEnd(buf, start) - start < field.Length || (LineEnd(buf, start) == |buf| <= start + field.Length)
    modifies field
    ensures newline == LineEnd(buf, start)
    ensures newline < |buf| ==> CString(field[..]) == LineAt(buf, start)
    ensures newline == |buf| ==> field[..] == LineAt(buf, start) + old(field[..])[newline - start..]
  {
    newline := start;
    ghost var end, before := LineEnd(buf, start), field[..];
    LineEndIs(buf, start);
    while newline < |buf| && buf[newline] != '\n'
      invariant start <= newline <= end
      invariant forall k :: 0 <= k < newline - start ==> field[k] == buf[start + k]
      invariant forall k :: newline - start <= k < field.Length ==> field[k] == before[k]
    {
      field[newline - start] := buf[newline];
      newline := newline + 1;
    }
    ghost var line := LineAt(buf, start);
    if newline < |buf| {
      field[newline - start] := NUL;
      assert field[..|line|] == line;
      assert line + [NUL] <= field[..];
      CStringOf(field[..], line);
    } else {
      assert field[..] == line + before[|line|..];
    }
  }

  /** Both parsing loops, into a record whose content buffer holds `stale`. */
  method ParsePost(buf: string, stale: seq<char>) returns (r: Record)
    requires Parses(buf, stale)
    ensures r == Parsed(buf, stale)
  {
    var from := new char[FROM_LEN](_ => NUL);
    var j := ParseLine(buf, 0, from);
    var content := ParseContent(buf, j + 1, stale);
    r := Record(CString(from[..]), content);
  }

  lemma ContentIs(buf: string, start: nat, stale: seq<char>, field: seq<char>)
    requires start <= |buf| && NUL !in buf && (LineEnd(buf, start) == |buf| ==> |buf| - start <= |stale|)
    requires LineEnd(buf, start) < |buf| ==> CString(field) == LineAt(buf, start)
    requires LineEnd(buf, start) == |buf| ==> field == LineAt(buf, start) + stale[LineEnd(buf, start) - start..]
    ensures CString(field) == Content(buf, start, stale)
  {
    var end := LineEnd(buf, start);
    if end == |buf| {
      CStringAppend(buf[start..], stale[end - start..]);
      assert LineAt(buf, start) == buf[start..];
    }
  }

  /** The second loop, into the buffer that holds `stale`. */
  method ParseContent(buf: string, start: nat, stale: seq<char>) returns (text: string)
    requires start <= |buf| && NUL !in buf && |stale| == CONTENT_LEN
    requires var n := LineEnd(buf, start) - start; n < CONTENT_LEN || (start + n == |buf| && n == CONTENT_LEN)
    ensures text == Content(buf, start, stale)
  {
    var content := new char[CONTENT_LEN](i requires 0 <= i < CONTENT_LEN => stale[i]);
    assert content[..] == stale;
    var end := ParseLine(buf, start, content);
    ContentIs(buf, start, stale, content[..]);
    text := CString(content[..]);
  }

  class Server {
    var last: int
    const locked: array<bool>
    var file: seq<Record>     // the record file
    var offset: nat           // the file offset, in records
    const all: array<Record>  // the copy in memory

    ghost predicate Valid()
      reads this, locked, all
    {
      && locked.Length == RECORD_NUM == all.Length
      && last >= -1 && offset <= |file| <= RECORD_NUM
      && (forall j :: 0 <= j < RECORD_NUM ==> !locked[j])
    }

    ghost function View(): (s: Site<Record>)
      requires Valid()
      reads this, locked, all
      ensures SiteOk(s)
    {
      Site(file, all[..], offset)
    }

    constructor (found: seq<Record>)
      requires |found| <= RECORD_NUM
      ensures Valid() && fresh(locked) && fresh(all)
      ensures last == -1 && View() == Site(found, Blanks(EMPTY, RECORD_NUM), 0)
    {
      last, file, offset := -1, found, 0;
      locked := new bool[RECORD_NUM](_ => false);
      all := new Record[RECORD_NUM](_ => EMPTY);
      new;
      assert all[..] == Blanks(EMPTY, RECORD_NUM);
    }

    /** The read at the top of the server's loop: whatever follows the file
        offset goes to the front of the copy. */
    method Refresh()
      requires Valid()
      modifies this`offset, all
      ensures Valid() && View() == React(EMPTY, old(View()), Top)
    {
      var n := |file| - offset;
      ghost var before := all[..];
      for i := 0 to n
        invariant offset == old(offset)
        invariant forall k :: 0 <= k < i ==> all[k] == file[offset + k]
        invariant forall k :: i <= k < RECORD_NUM ==> all[k] == before[k]
      {
        all[i] := file[offset + i];
      }
      assert all[..] == file[offset..] + before[n..];
      offset := |file|;
    }

    /** Another server process writes a record of the file. */
    method OtherWrites(slot: SlotNumber, r: Record)
      requires Valid()
      modifies this`file
      ensures Valid() && View() == React(EMPTY, old(View()), Foreign(slot, r))
    {
      WriteRecord(slot, r);
    }

    /** `lseek` and `write`; the file system fills a hole with zeros. */
    method WriteRecord(slot: nat, r: Record)
      requires slot < RECORD_NUM && |file| <= RECORD_NUM
      modifies this`file
      ensures file == WriteAt(EMPTY, old(file), slot, r) && |old(file)| <= |file| <= RECORD_NUM
    {
      while |file| < slot
        invariant file == old(file) + Blanks(EMPTY, |file| - |old(file)|)
        invariant |old(file)| <= |file| && (|file| <= slot || file == old(file))
        decreases slot - |file|
      {
        file := file + [EMPTY];
      }
      file := if slot < |file| then file[slot := r] else file + [r];
    }

    /** One search loop. */
    method Search(foreign: set<int>) returns (flag: bool, pos: int)
      requires Valid()
      modifies this`last, locked
      ensures flag == (Choice(old(last), foreign) <= old(last) + RECORD_NUM)
      ensures !flag ==> pos == 0 && last == old(last) && Valid()
      ensures flag ==> last == Choice(old(last), foreign) && pos == Slot(last)
      ensures forall j :: 0 <= j < RECORD_NUM ==> locked[j] == (flag && j == pos)
    {
      flag, pos := false, 0;
      var i := last + 1;
      var stop := last + RECORD_NUM + 1;
      while i < stop && !flag
        invariant last == old(last) || flag
        invariant old(last) + 1 <= i <= stop == old(last) + RECORD_NUM + 1
        invariant !flag ==> pos == 0 && Choice(old(last), foreign) == FirstFree(i, stop, foreign)
        invariant flag ==> i < stop && last == i == Choice(old(last), foreign) && pos == Slot(i)
        invariant forall j :: 0 <= j < RECORD_NUM ==> locked[j] == (flag && j == pos)
        decreases stop - i, !flag
      {
        var j := i % RECORD_NUM;
        if j !in foreign && !locked[j] {
          locked[j] := true;
          last := i;
          flag := true;
          pos := j;
        } else {
          i := i + 1;
        }
      }
    }

    /** A post request, with `foreign` the slots other processes have locked. */
    method Post(buf: string, foreign: set<int>, stale: seq<char>)
      requires Valid() && Parses(buf, stale)
      modifies this, locked
      ensures Valid() && last == NextLast(old(last), foreign)
      ensures View() == React(EMPTY, old(View()), Own(PostSlot(old(last), foreign), Parsed(buf, stale)))
    {
      var flag, pos := Search(foreign);
      if !flag {
        flag, pos := Search(foreign);
      }
      var r := ParsePost(buf, stale);
      WriteRecord(pos, r);
      offset := 0;
      locked[pos] := false;
    }

    /** The answer to a check request: is every slot locked? */
    method CheckAnswer(foreign: set<int>) returns (tmp: string)
      requires Valid()
      ensures tmp == if forall j :: 0 <= j < RECORD_NUM ==> j in foreign then "yes" else "no"
    {
      var num := 0;
      for i := 0 to RECORD_NUM
        invariant num <= i && (num == i <==> forall j :: 0 <= j < i ==> j in foreign)
      {
        if i in foreign || locked[i] {
          num := num + 1;
        }
      }
      tmp := if num == RECORD_NUM then "yes" else "no";
    }

    /** The answer to a pull request, from the copy in memory. */
    method PullAnswer(foreign: set<int>) returns (tmp: string)
      requires Valid()
      ensures tmp == Answer(View(), foreign)
    {
      tmp := "'";
      for i := 0 to RECORD_NUM
        invariant tmp == PullText(Visible(all[..i], foreign))
      {
        ghost var rs := Visible(all[..i], foreign);
        assert all[..i + 1][..i] == all[..i];
        if i !in foreign && all[i].from != "" && all[i].content != "" && !locked[i] {
          BodySnoc(rs, all[i]);
          assert tmp + all[i].from + "*" + all[i].content + "*" == "'" + (PullBody(rs) + Starred(all[i]));
          tmp := tmp + all[i].from + "*" + all[i].content + "*";
          assert Visible(all[..i + 1], foreign) == rs + [all[i]];
        } else {
          assert Visible(all[..i + 1], foreign) == rs + [] == rs;
        }
      }
      assert all[..RECORD_NUM] == all[..];
    }

    /** One request, from its text to its answer: "pull" is answered with the
        records of the copy, "check" with whether every slot is locked, "exit"
        with nothing; none of these changes anything. Any other text is a post
        and is stored. */
    method Request(buf: string, foreign: set<int>, stale: seq<char>) returns (answer: string)
      requires Valid() && (buf !in ["pull", "check", "exit"] ==> Parses(buf, stale))
      modifies this, locked
      ensures Valid()
      ensures buf in ["pull", "check", "exit"] ==> View() == old(View()) && last == old(last)
      ensures buf == "pull" ==> answer == Answer(View(), foreign)
      ensures buf == "check" ==>
                answer == if forall j :: 0 <= j < RECORD_NUM ==> j in foreign then "yes" else "no"
      ensures buf !in ["pull", "check"] ==> answer == ""
      ensures buf !in ["pull", "check", "exit"] ==>
                && last == NextLast(old(last), foreign)
                && View() == React(EMPTY, old(View()), Own(PostSlot(old(last), foreign), Parsed(buf, stale)))
    {
      answer := "";
      match Classify(buf) {
        case PullMessage => answer := PullAnswer(foreign);
        case CheckMessage => answer := CheckAnswer(foreign);
        case ExitMessage =>
        case PostMessage => Post(buf, foreign, stale);
      }
    }

    /** One input, whatever came before it in this iteration of the loop. */
    method Serve(input: Input, stale: seq<char>) returns (answer: string)
      requires Valid() && (input.Post? ==> Postable(input.r)) && |stale| == CONTENT_LEN
      modifies this, locked, all
      ensures Valid() && View() == React(EMPTY, old(View()), Resolve(old(last), input))
      ensures last == if input.Post? then NextLast(old(last), input.locked) else old(last)
      ensures input.Pull? ==> answer == Answer(old(View()), input.locked)
    {
      answer := "";
      match input {
        case Iterate => Refresh();
        case Post(r, foreign) =>
          PostParses(r, stale);
          PostIsPost(r);
          answer := Request(PostText(r), foreign, stale);
        case Other(slot, r) => OtherWrites(slot, r);
        case Pull(foreign) => answer := Request("pull", foreign, stale);
      }
    }
  }

  /** A server up to its first read. */
  method Open(file: seq<Record>) returns (server: Server)
    requires |file| <= RECORD_NUM
    ensures server.Valid() && server.last == -1 && server.View() == After(EMPTY, file, [])
    ensures fresh(server) && fresh(server.locked) && fresh(server.all)
  {
    server := new Server(file);
    server.Refresh();
    FirstRead(file);
  }

  /** The server from its first read on: the pulls among any inputs are answered
      as `MemoryCopy` says. */
  method ServeAll(file: seq<Record>, inputs: seq<Input>) returns (answers: seq<string>)
    requires |file| <= RECORD_NUM && forall k :: 0 <= k < |inputs| && inputs[k].Post? ==> Postable(inputs[k].r)
    ensures answers == Answers(file, Events(inputs))
  {
    var server := Open(file);
    assert inputs[..0] == [];
    answers := [];
    for k := 0 to |inputs|
      invariant server.Valid() && Served(file, inputs[..k], server.last, server.View(), answers)
      invariant fresh(server) && fresh(server.locked) && fresh(server.all)
    {
      ServedNext(file, inputs, k, server.last, server.View(), answers);
      var answer := server.Serve(inputs[k], seq(CONTENT_LEN, _ => NUL));
      if inputs[k].Pull? {
        answers := answers + [answer];
      }
    }
    assert inputs[..|inputs|] == inputs;
  }

  /** The client's two loops over a pull answer: count the stars, then print. */
  method RenderPull(buf: string) returns (out: string)
    ensures out == Render(buf)
  {
    var cnt := 0;
    if |buf| > 0 {
      for i := 1 to |buf|
        invariant cnt == Stars(buf[1..i])
      {
        assert buf[1..i + 1][..i - 1] == buf[1..i];
        if buf[i] == '*' {
          cnt := cnt + 1;
        }
      }
      assert buf[1..|buf|] == buf[1..];
    }
    out := "";
    if |buf| > 0 && cnt > 0 {
      out := "FROM: ";
      out := RenderLoop(buf, cnt, out);
      out := out + "\n";
    }
  }

  /** The body of the second loop, with `rest` still to come. */
  method RenderOneChar(c: char, head: string, stars: int, parity: nat, ghost rest: string)
    returns (out: string, cnt: int, dir: nat)
    requires stars > 0
    ensures out + RenderRest(rest, cnt, dir) == head + RenderRest([c] + rest, stars, parity)
  {
    out, cnt, dir := head, stars, parity;
    RenderOne(c, rest, cnt, dir);
    if c != '*' {
      out := out + [c];
    }
    if c == '*' && dir % 2 == 0 {
      out := out + "\nCONTENT:\n";
      dir := dir + 1;
      cnt := cnt - 1;
    } else if c == '*' && dir % 2 == 1 && cnt > 1 {
      out := out + "\nFROM: ";
      dir := dir + 1;
      cnt := cnt - 1;
    }
  }

  method RenderLoop(buf: string, stars: nat, head: string) returns (out: string)
    requires buf != "" && stars > 0
    ensures out == head + RenderRest(buf[1..], stars, 0)
  {
    out := head;
    var cnt, dir, i := stars, 0, 1;
    while i < |buf| && cnt > 0
      invariant 1 <= i <= |buf|
      invariant out + RenderRest(buf[i..], cnt, dir) == head + RenderRest(buf[1..], stars, 0)
    {
      assert buf[i..] == [buf[i]] + buf[i + 1..];
      out, cnt, dir := RenderOneChar(buf[i], out, cnt, dir, buf[i + 1..]);
      i := i + 1;
    }
  }

  /** A session of one server without foreign locks: the posts are sent and
      stored round robin over the file it found, and a pull served in a later
      iteration is shown as exactly the records then on the board, if and only if
      none of those contains a star. */
  method Session(file: seq<Record>, posts: seq<Record>) returns (screen: string)
    requires |file| <= RECORD_NUM && forall r :: r in posts ==> Postable(r)
    ensures var shown := Visible(PostAll(Padded(EMPTY, file), posts).slots, {});
            screen == Listing(shown) <==> AllStarFree(shown)
    ensures AllStarFree(file + posts) ==>
              screen == Listing(Visible(PostAll(Padded(EMPTY, file), posts).slots, {}))
  {
    var answers := ServeAll(file, Posts(posts) + [Iterate] + [Pull({})]);
    PullAfterPosts(file, posts);
    var answer := answers[|answers| - 1];
    screen := RenderPull(answer);
    var slots := Padded(EMPTY, file);
    PullRoundTrip(Visible(PostAll(slots, posts).slots, {}));
    if AllStarFree(file + posts) { ShownStarFree(slots, posts); }
  }

  lemma ShownStarFree(file: seq<Record>, posts: seq<Record>)
    requires |file| == RECORD_NUM && AllStarFree(file + posts)
    ensures AllStarFree(Visible(PostAll(file, posts).slots, {}))
  {
    var slots := PostAll(file, posts).slots;
    forall r | r in Visible(slots, {}) ensures StarFree(r.from) && StarFree(r.content) {
      SentIff(slots, {}, r);
      var j :| 0 <= j < |slots| && slots[j] == r;
      RoundRobin(file, posts, j);
      assert r in file + posts;
    }
  }
}
