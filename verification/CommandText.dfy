/** The text of HW2's messages: words separated by single spaces, and the
    scanners that pick a word out by counting spaces. */
module CommandText {

  import opened CStrings

  function Spaces(text: string): nat {
    if text == "" then 0
    else Spaces(text[..|text| - 1]) + (if text[|text| - 1] == ' ' then 1 else 0)
  }

  /** The characters of `text` that stand after exactly `k` spaces. */
  function Field(text: string, k: nat): string {
    if text == "" then ""
    else
      var prior, c := text[..|text| - 1], text[|text| - 1];
      Field(prior, k) + (if Spaces(prior) == k && c != ' ' then [c] else "")
  }

  /** The scanning loop: it fills `want` index by index and ends it with NUL. */
  method ScanField(buf: string, k: nat, want: array<char>) returns (length: nat)
    requires |buf| < want.Length
    modifies want
    ensures length < want.Length && want[..length] == Field(buf, k) && want[length] == NUL
  {
    var cntSpace, j := 0, 0;
    for i := 0 to |buf|
      invariant 0 <= j <= i && cntSpace == Spaces(buf[..i])
      invariant want[..j] == Field(buf[..i], k)
    {
      assert buf[..i + 1][..i] == buf[..i];
      if cntSpace == k && buf[i] != ' ' {
        want[j] := buf[i];
        j := j + 1;
      }
      if buf[i] == ' ' {
        cntSpace := cntSpace + 1;
      }
    }
    assert buf[..|buf|] == buf;
    want[j] := NUL;
    length := j;
  }

  // ------------------------------------------------------------------ round trip

  predicate IsWord(w: string) {
    ' ' !in w
  }

  /** Words put together as the `sprintf` formats do. */
  function Join(words: seq<string>): string {
    if words == [] then ""
    else if |words| == 1 then words[0]
    else Join(words[..|words| - 1]) + " " + words[|words| - 1]
  }

  lemma {:induction false} WordAppends(text: string, w: string, k: nat)
    requires IsWord(w)
    ensures Spaces(text + w) == Spaces(text)
    ensures Field(text + w, k) == Field(text, k) + (if Spaces(text) == k then w else "")
  {
    if w == "" {
      assert text + w == text;
    } else {
      var n := |w| - 1;
      WordAppends(text, w[..n], k);
      assert (text + w)[..|text| + n] == text + w[..n];
      assert w == w[..n] + [w[n]];
      assert w[n] != ' ';
    }
  }

  lemma SpaceAppends(text: string, k: nat)
    ensures Spaces(text + " ") == Spaces(text) + 1
    ensures Field(text + " ", k) == Field(text, k)
  {
  }

  /** Counting spaces finds exactly the words that were joined. */
  lemma {:induction false} FieldOfJoin(words: seq<string>, k: nat)
    requires words != [] && forall w :: w in words ==> IsWord(w)
    ensures Spaces(Join(words)) == |words| - 1
    ensures Field(Join(words), k) == if k < |words| then words[k] else ""
  {
    var n := |words| - 1;
    if n == 0 {
      WordAppends("", words[0], k);
      assert "" + words[0] == words[0];
    } else {
      FieldOfJoin(words[..n], k);
      SpaceAppends(Join(words[..n]), k);
      WordAppends(Join(words[..n]) + " ", words[n], k);
    }
  }

  /** The commands the Manager passes on. */
  datatype Command =
    | Spawn(parent: string, child: string)
    | Exchange(first: string, second: string)
    | Find(target: string)

  function Words(c: Command): seq<string> {
    match c
    case Spawn(parent, child) => ["spawn", parent, child]
    case Exchange(first, second) => ["exchange", first, second]
    case Find(target) => ["find", target]
  }

  function Text(c: Command): string {
    Join(Words(c))
  }

  ghost predicate WellNamed(c: Command) {
    forall w :: w in Words(c) ==> IsWord(w)
  }

  /** The texts are those of the `sprintf` formats. */
  lemma TextFormat(c: Command)
    ensures Text(c) ==
            match c
            case Spawn(parent, child) => "spawn " + parent + " " + child
            case Exchange(first, second) => "exchange " + first + " " + second
            case Find(target) => "find " + target
  {
    match c
    case Spawn(parent, child) => JoinThree("spawn", parent, child); assert "spawn" + " " == "spawn ";
    case Exchange(first, second) => JoinThree("exchange", first, second); assert "exchange" + " " == "exchange ";
    case Find(target) => JoinTwo("find", target); assert "find" + " " == "find ";
  }

  lemma JoinTwo(a: string, b: string)
    ensures Join([a, b]) == a + " " + b
  {
    assert [a, b][..1] == [a];
  }

  lemma JoinThree(a: string, b: string, c: string)
    ensures Join([a, b, c]) == a + " " + b + " " + c
  {
    JoinTwo(a, b);
    assert [a, b, c][..2] == [a, b];
  }

  /** Every name of a command survives the trip through its text. */
  lemma CommandRoundTrip(c: Command)
    requires WellNamed(c)
    ensures Field(Text(c), 0) == Words(c)[0]
    ensures Field(Text(c), 1) == Words(c)[1]
    ensures Field(Text(c), 2) == if |Words(c)| == 3 then Words(c)[2] else ""
    ensures Text(c) != "" && Text(c)[0] == Words(c)[0][0]
  {
    FieldOfJoin(Words(c), 0);
    FieldOfJoin(Words(c), 1);
    FieldOfJoin(Words(c), 2);
    JoinStarts(Words(c));
  }

  lemma {:induction false} JoinStarts(words: seq<string>)
    requires words != [] && words[0] != ""
    ensures words[0] <= Join(words)
  {
    if |words| > 1 { JoinStarts(words[..|words| - 1]); }
  }

  /** Different commands have different texts. */
  lemma TextInjective(c: Command, d: Command)
    requires WellNamed(c) && WellNamed(d) && Text(c) == Text(d)
    ensures c == d
  {
    CommandRoundTrip(c);
    CommandRoundTrip(d);
    assert "spawn"[0] == 's' && "exchange"[0] == 'e' && "find"[0] == 'f';
  }
}
