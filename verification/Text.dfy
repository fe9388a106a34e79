/**
 Byte strings and the few library operations on them that the mail code relies on.

 A `char` stands for one byte of ASCII text.  White space is the ASCII part of
 `unicode.IsSpace`, and case folding is the ASCII one.
 */
module Text {

  datatype Option<+T> = None | Some(value: T)

  const CRLF: string := "\r\n"

  /** The ASCII characters that `unicode.IsSpace` accepts. */
  predicate IsSpace(c: char) {
    c == ' ' || '\t' <= c <= '\r'
  }

  /** WSP of section 2.8 of RFC 6376. */
  predicate IsWsp(c: char) {
    c == ' ' || c == '\t'
  }

  /** SP, TAB, LF and CR: folding white space. */
  predicate IsFws(c: char) {
    c == ' ' || c == '\t' || c == '\n' || c == '\r'
  }

  predicate IsLineEnd(c: char) {
    c == '\r' || c == '\n'
  }

  predicate NoneOf(s: string, p: char -> bool) {
    forall i :: 0 <= i < |s| ==> !p(s[i])
  }

  predicate AllOf(s: string, p: char -> bool) {
    forall i :: 0 <= i < |s| ==> p(s[i])
  }

  lemma {:induction false} ConcatAssoc(a: string, b: string, c: string)
    ensures a + (b + c) == a + b + c
  {
  }

  /** A string around one of its characters. */
  lemma {:induction false} Around(s: string, i: nat)
    requires i < |s|
    ensures s == s[..i] + [s[i]] + s[i + 1..]
  {
  }

  lemma {:induction false} Shift(c: char, a: string, b: string, d: char)
    ensures [c] + (a + [d] + b) == ([c] + a) + [d] + b
    ensures (b + [d] + a) + [c] == b + [d] + (a + [c])
  {
  }

  lemma {:induction false} Cancel(a: string, b: string, c: string)
    ensures a + c == b + c <==> a == b
    ensures c + a == c + b <==> a == b
  {
    if a + c == b + c {
      assert a == (a + c)[..|a|] && b == (b + c)[..|b|];
    }
    if c + a == c + b {
      assert a == (c + a)[|c|..] && b == (c + b)[|c|..];
    }
  }

  function Concat(parts: seq<string>): string {
    if parts == [] then "" else parts[0] + Concat(parts[1..])
  }

  lemma {:induction false} ConcatAppend(a: seq<string>, b: seq<string>)
    ensures Concat(a + b) == Concat(a) + Concat(b)
  {
    if a == [] {
      assert a + b == b;
    } else {
      ConcatAppend(a[1..], b);
      assert (a + b)[1..] == a[1..] + b;
    }
  }

  lemma {:induction false} ConcatSnoc(a: seq<string>, s: string)
    ensures Concat(a + [s]) == Concat(a) + s
  {
    ConcatAppend(a, [s]);
    assert Concat([s]) == s;
  }

  function Mapped<T, U>(f: T -> U, s: seq<T>): (r: seq<U>)
    ensures |r| == |s|
  {
    seq(|s|, i requires 0 <= i < |s| => f(s[i]))
  }

  lemma {:induction false} MappedSnoc<T, U>(f: T -> U, s: seq<T>, i: nat)
    requires i < |s|
    ensures Mapped(f, s[..i + 1]) == Mapped(f, s[..i]) + [f(s[i])]
  {
  }
}
