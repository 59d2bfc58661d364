/** NUL-terminated strings in character buffers. */
module CStrings {

  const NUL: char := 0 as char

  /** The string a NUL-terminated buffer holds. */
  function CString(buf: seq<char>): string {
    if buf == [] || buf[0] == NUL then "" else [buf[0]] + CString(buf[1..])
  }

  lemma {:induction false} CStringOf(buf: seq<char>, text: string)
    requires text + [NUL] <= buf && NUL !in text
    ensures CString(buf) == text
  {
    if text != "" {
      assert buf[0] == text[0] && text[0] in text;
      assert text[1..] + [NUL] <= buf[1..];
      CStringOf(buf[1..], text[1..]);
    }
  }

  lemma {:induction false} CStringAppend(text: string, rest: seq<char>)
    requires NUL !in text
    ensures CString(text + rest) == text + CString(rest)
  {
    if text == "" {
      assert text + rest == rest;
    } else {
      assert (text + rest)[0] == text[0] && text[0] in text;
      assert (text + rest)[1..] == text[1..] + rest;
      CStringAppend(text[1..], rest);
    }
  }
}
