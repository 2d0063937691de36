/** Kinds of characters, and searching in strings. */
module Strings {
  import opened Resources

  /** The letters and the numeric characters of Unicode outside ASCII. They are left open: every statement holds
      whatever they are. */
  const OTHER_LETTERS: set<char>
  const OTHER_NUMERIC: set<char>

  predicate Ascii(c: char) {
    c as int < 128
  }

  predicate Alphabetic(c: char) {
    'a' <= c <= 'z' || 'A' <= c <= 'Z' || (!Ascii(c) && c in OTHER_LETTERS)
  }

  predicate Alphanumeric(c: char) {
    Alphabetic(c) || '0' <= c <= '9' || (!Ascii(c) && c in OTHER_NUMERIC)
  }

  predicate NameChar(c: char) {
    Alphanumeric(c) || c == '_'
  }

  /** The position of the first `c`, or the length without one. */
  function UpTo(s: string, c: char): (n: nat)
    ensures n <= |s| && c !in s[..n] && (n < |s| ==> s[n] == c)
  {
    if s == "" || s[0] == c then 0 else 1 + UpTo(s[1..], c)
  }

  lemma {:induction false} UpToAfter(name: string, rest: string, c: char)
    requires c !in name
    ensures UpTo(name + [c] + rest, c) == |name|
  {
    if name != "" {
      assert (name + [c] + rest)[1..] == name[1..] + [c] + rest;
      UpToAfter(name[1..], rest, c);
    }
  }

  /** The parts before and after the first `c`. */
  function SplitOnce(s: string, c: char): Option<(string, string)> {
    var n := UpTo(s, c);
    if n == |s| then None else Some((s[..n], s[n + 1..]))
  }

  lemma SplitAt(a: string, c: char, b: string)
    requires c !in a
    ensures SplitOnce(a + [c] + b, c) == Some((a, b))
  {
    UpToAfter(a, b, c);
    var s := a + [c] + b;
    assert s[..|a|] == a && s[|a| + 1..] == b;
  }

  lemma SplitParts(s: string, c: char)
    ensures SplitOnce(s, c).None? <==> c !in s
    ensures SplitOnce(s, c).Some? ==>
              var p := SplitOnce(s, c).value; c !in p.0 && s == p.0 + [c] + p.1
  {
    var n := UpTo(s, c);
    if n == |s| {
      assert s[..n] == s;
    }
  }

  lemma Associate<T>(a: seq<T>, b: seq<T>, c: seq<T>)
    ensures a + b + c == a + (b + c)
  {
  }
}
