/** The requests of one server process, resolved to what they do to the record
    file: each post goes to the slot the search finds. */
module ServerRequests {
  import opened BulletinBoard
  import opened MemoryCopy

  datatype Input =
    | Iterate                             // the top of an iteration
    | Post(r: Record, locked: set<int>)   // a post request, while others hold these locks
    | Other(slot: SlotNumber, r: Record)  // another server process writes a slot
    | Pull(locked: set<int>)              // a pull request

  /** The slot a post goes to, and the count after it. */
  function PostSlot(last: int, locked: set<int>): (j: nat)
    requires last >= -1
    ensures j < RECORD_NUM
  {
    if Choice(last, locked) <= last + RECORD_NUM then Slot(Choice(last, locked)) else 0
  }

  function NextLast(last: int, locked: set<int>): (next: int)
    requires last >= -1
    ensures next >= -1
  {
    if Choice(last, locked) <= last + RECORD_NUM then Choice(last, locked) else last
  }

  function Resolve(last: int, input: Input): Event<Record>
    requires last >= -1
  {
    match input
    case Iterate => Top
    case Post(r, locked) => Own(PostSlot(last, locked), r)
    case Other(slot, r) => Foreign(slot, r)
    case Pull(locked) => Asked(locked)
  }

  function LastAfter(inputs: seq<Input>): (last: int)
    ensures last >= -1
  {
    if inputs == [] then -1
    else
      var last, input := LastAfter(inputs[..|inputs| - 1]), inputs[|inputs| - 1];
      if input.Post? then NextLast(last, input.locked) else last
  }

  /** What a server does that starts with these inputs after its first read. */
  function Events(inputs: seq<Input>): (es: seq<Event<Record>>)
    ensures |es| == |inputs|
  {
    if inputs == [] then []
    else
      var n := |inputs| - 1;
      Events(inputs[..n]) + [Resolve(LastAfter(inputs[..n]), inputs[n])]
  }

  /** The board as it is after the inputs, whatever the server has read of it. */
  function BoardAfter(file: seq<Record>, inputs: seq<Input>): (b: Board)
    requires |file| <= RECORD_NUM
    ensures WellFormed(b)
  {
    Board(LastAfter(inputs), SlotsOf(After(EMPTY, file, Events(inputs))))
  }

  lemma EventsSnoc(file: seq<Record>, inputs: seq<Input>, k: nat)
    requires |file| <= RECORD_NUM && k < |inputs|
    ensures LastAfter(inputs[..k + 1]) ==
            if inputs[k].Post? then NextLast(LastAfter(inputs[..k]), inputs[k].locked) else LastAfter(inputs[..k])
    ensures var prior, e := Events(inputs[..k]), Resolve(LastAfter(inputs[..k]), inputs[k]);
            && Events(inputs[..k + 1]) == prior + [e]
            && After(EMPTY, file, Events(inputs[..k + 1])) == React(EMPTY, After(EMPTY, file, prior), e)
            && Answers(file, Events(inputs[..k + 1])) == Answers(file, prior) +
                 (if e.Asked? then [Answer(After(EMPTY, file, prior), e.locked)] else [])
  {
    assert inputs[..k + 1][..k] == inputs[..k];
    var prior, e := Events(inputs[..k]), Resolve(LastAfter(inputs[..k]), inputs[k]);
    assert (prior + [e])[..k] == prior;
  }

  /** A server that has taken these inputs, with the answers it has given. */
  ghost predicate Served(file: seq<Record>, inputs: seq<Input>, last: int, s: Site<Record>, answers: seq<string>)
    requires |file| <= RECORD_NUM
  {
    && last == LastAfter(inputs)
    && s == After(EMPTY, file, Events(inputs))
    && answers == Answers(file, Events(inputs))
  }

  lemma ServedNext(file: seq<Record>, inputs: seq<Input>, k: nat, last: int, s: Site<Record>, answers: seq<string>)
    requires |file| <= RECORD_NUM && k < |inputs| && Served(file, inputs[..k], last, s, answers)
    ensures var input := inputs[k];
            Served(file, inputs[..k + 1],
                   if input.Post? then NextLast(last, input.locked) else last,
                   React(EMPTY, s, Resolve(last, input)),
                   if input.Pull? then answers + [Answer(s, input.locked)] else answers)
  {
    EventsSnoc(file, inputs, k);
    assert answers + [] == answers;
  }

  /** Over the growing file, a post is the post of the board of ten slots, and a
      write by another process changes one slot. */
  lemma BoardStep(file: seq<Record>, inputs: seq<Input>, k: nat)
    requires |file| <= RECORD_NUM && k < |inputs|
    ensures var b := BoardAfter(file, inputs[..k]);
            BoardAfter(file, inputs[..k + 1]) ==
            match inputs[k]
            case Post(r, locked) => PostTo(b, r, locked)
            case Other(slot, r) => b.(slots := b.slots[slot := r])
            case _ => b
  {
    var s, e := After(EMPTY, file, Events(inputs[..k])), Resolve(LastAfter(inputs[..k]), inputs[k]);
    EventsSnoc(file, inputs, k);
    assert inputs[..k + 1][..k] == inputs[..k];
    if IsWrite(e) { WriteLands(EMPTY, s, e); }
  }

  /** A pull served in the same iteration as a post before it does not show it: on
      a new board the answer is empty, not the record just posted. */
  lemma StalePull(r: Record)
    requires Shown(r)
    ensures var s := After(EMPTY, [], Events([Post(r, {})]));
            && Answer(s, {}) == "'" && Visible(SlotsOf(s), {}) == [r] && !Current(s, {})
            && PullText(Visible(SlotsOf(s), {})) == "'" + r.from + "*" + r.content + "*"
  {
    var start := After(EMPTY, [], []);
    assert [Post(r, {})][..0] == [] && [Own(0, r)][..0] == [];
    assert Choice(-1, {}) == 0;
    assert Events([Post(r, {})]) == [Own(0, r)];
    OneVisible(start.copy, {});
    WriteLands(EMPTY, start, Own(0, r));
    OneVisible(SlotsOf(React(EMPTY, start, Own(0, r))), {});
    assert |PullText([r])| > |PullText([])|;
  }

  /** A post with an empty sender or text is stored, and no pull shows it: no
      pull of any server lists a record like it, and the board it leaves is
      listed as if the slot were blank. */
  lemma EmptyFieldNeverShown(file: seq<Record>, inputs: seq<Input>, r: Record, free: set<int>, locked: set<int>)
    requires |file| <= RECORD_NUM && (r.from == "" || r.content == "")
    ensures r !in Visible(After(EMPTY, file, Events(inputs)).copy, locked)
    ensures var b, b' := BoardAfter(file, inputs), BoardAfter(file, inputs + [Post(r, free)]);
            var j := PostSlot(b.last, free);
            && b'.slots == b.slots[j := r]
            && Visible(b'.slots, locked) == Visible(b.slots[j := EMPTY], locked)
  {
    SentIff(After(EMPTY, file, Events(inputs)).copy, locked, r);
    var b, n, j := BoardAfter(file, inputs), |inputs|, PostSlot(LastAfter(inputs), free);
    assert (inputs + [Post(r, free)])[..n] == inputs && (inputs + [Post(r, free)])[..n + 1] == inputs + [Post(r, free)];
    BoardStep(file, inputs + [Post(r, free)], n);
    EmptyFieldHides(b.slots, j, r, locked);
    assert BoardAfter(file, inputs + [Post(r, free)]).slots == b.slots[j := r];
  }

  // -------------------------------------------------------------- posts, then a pull

  function Posts(rs: seq<Record>): (inputs: seq<Input>)
    ensures |inputs| == |rs|
  {
    seq(|rs|, k requires 0 <= k < |rs| => Post(rs[k], {}))
  }

  lemma {:induction false} PostsBoard(file: seq<Record>, rs: seq<Record>)
    requires |file| <= RECORD_NUM
    ensures BoardAfter(file, Posts(rs)) == PostAll(Padded(EMPTY, file), rs)
  {
    if rs != [] {
      var n := |rs| - 1;
      PostsBoard(file, rs[..n]);
      assert Posts(rs)[..n] == Posts(rs[..n]) && Posts(rs)[..n + 1] == Posts(rs);
      BoardStep(file, Posts(rs), n);
    }
  }

  lemma PostsRewind(file: seq<Record>, rs: seq<Record>)
    requires |file| <= RECORD_NUM
    ensures var s := After(EMPTY, file, Events(Posts(rs)));
            if rs == [] then s == Start(EMPTY, file) else s.offset == 0
  {
    if rs != [] {
      var n := |rs| - 1;
      assert Posts(rs)[..n + 1] == Posts(rs);
      EventsSnoc(file, Posts(rs), n);
    }
  }

  lemma ReadAfterPosts(file: seq<Record>, rs: seq<Record>)
    requires |file| <= RECORD_NUM
    ensures CopyAfter(After(EMPTY, file, Events(Posts(rs))), Top) == PostAll(Padded(EMPTY, file), rs).slots
  {
    PostsBoard(file, rs);
    PostsRewind(file, rs);
    if rs != [] {
      FullRead(EMPTY, file, Events(Posts(rs)));
    } else {
      NothingToRead(Start(EMPTY, file));
    }
  }

  lemma NothingToRead(s: Site<Record>)
    requires SiteOk(s) && s.offset == |s.file|
    ensures CopyAfter(s, Top) == s.copy
  {
  }

  /** Posts and then the read of a later iteration: the copy is the board. */
  lemma PostsShown(file: seq<Record>, rs: seq<Record>)
    requires |file| <= RECORD_NUM
    ensures After(EMPTY, file, Events(Posts(rs) + [Iterate])).copy == PostAll(Padded(EMPTY, file), rs).slots
  {
    var inputs := Posts(rs) + [Iterate];
    EventsSnoc(file, inputs, |rs|);
    assert inputs[..|rs|] == Posts(rs) && inputs[..|rs| + 1] == inputs;
    ReadAfterPosts(file, rs);
  }

  /** A pull after that. */
  lemma PullAfterPosts(file: seq<Record>, rs: seq<Record>)
    requires |file| <= RECORD_NUM
    ensures var answers := Answers(file, Events(Posts(rs) + [Iterate] + [Pull({})]));
            answers != [] &&
            answers[|answers| - 1] == PullText(Visible(PostAll(Padded(EMPTY, file), rs).slots, {}))
  {
    PostsShown(file, rs);
    LastAnswer(file, Posts(rs) + [Iterate], {});
  }

  lemma LastAnswer(file: seq<Record>, inputs: seq<Input>, locked: set<int>)
    requires |file| <= RECORD_NUM
    ensures Answers(file, Events(inputs + [Pull(locked)])) ==
            Answers(file, Events(inputs)) + [Answer(After(EMPTY, file, Events(inputs)), locked)]
  {
    var n := |inputs|;
    EventsSnoc(file, inputs + [Pull(locked)], n);
    assert (inputs + [Pull(locked)])[..n] == inputs && (inputs + [Pull(locked)])[..n + 1] == inputs + [Pull(locked)];
  }
}
