/** The parts of `String.prototype.split` and of ASCII case mapping the server
    relies on. */
module Strings {
  import opened Options

  /** ASCII lower-casing of one character. */
  function LowerChar(c: char): char {
    if 'A' <= c <= 'Z' then (c as int + 32) as char else c
  }

  /** ASCII upper-casing of one character. */
  function UpperChar(c: char): char {
    if 'a' <= c <= 'z' then (c as int - 32) as char else c
  }

  /** The text before the first occurrence of `sep`, or all of `s` when
      `sep` does not occur: element 0 of `s.split(sep)`. */
  function Before(s: string, sep: char): (r: string)
    ensures r <= s
    ensures sep !in r
    ensures |r| < |s| ==> s[|r|] == sep
  {
    if s == [] || s[0] == sep then [] else [s[0]] + Before(s[1..], sep)
  }

  /** `s.split(sep)` for a single-character separator. */
  function Split(s: string, sep: char): (parts: seq<string>)
    ensures |parts| >= 1
    ensures parts[0] == Before(s, sep)
    decreases |s|
  {
    var head := Before(s, sep);
    if |head| == |s| then [s] else [head] + Split(s[|head| + 1..], sep)
  }

  /** Element 1 of `s.split(sep)`; None is JavaScript's `undefined`. */
  function SecondField(s: string, sep: char): (r: Option<string>)
    ensures r.Some? <==> sep in s
  {
    var parts := Split(s, sep);
    if |parts| >= 2 then Some(parts[1]) else None
  }

  /** The first field of a string that starts with a separator-free prefix and
      a separator is exactly that prefix. */
  lemma {:induction false} BeforeOfJoined(a: string, sep: char, b: string)
    requires sep !in a
    ensures Before(a + [sep] + b, sep) == a
  {
    if a != [] {
      assert (a + [sep] + b)[1..] == a[1..] + [sep] + b;
      BeforeOfJoined(a[1..], sep, b);
    } else {
      assert (a + [sep] + b)[0] == sep;
    }
  }

  /** Splitting a separator-free string yields the string itself. */
  lemma BeforeOfPlain(a: string, sep: char)
    requires sep !in a
    ensures Before(a, sep) == a
  {
  }

  /** `split` undoes a join: the fields of `a + sep + b` are `a` followed by the
      fields of `b`. */
  lemma SplitOfJoined(a: string, sep: char, b: string)
    requires sep !in a
    ensures Split(a + [sep] + b, sep) == [a] + Split(b, sep)
  {
    var s := a + [sep] + b;
    BeforeOfJoined(a, sep, b);
    assert s[|a| + 1..] == b;
  }
}
