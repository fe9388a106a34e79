/** The functions of Go's `strings` package that the mail code calls, on ASCII text. */
module Strings {
  import opened Text

  // ----- searching and cutting

  /** Index of the first `c` in `s`, or `|s|`. */
  function IndexOf(s: string, c: char): (i: nat)
    ensures i <= |s| && (i < |s| ==> s[i] == c)
  {
    if s == "" || s[0] == c then 0 else 1 + IndexOf(s[1..], c)
  }

  lemma {:induction false} IndexOfFirst(s: string, c: char)
    ensures c !in s[..IndexOf(s, c)]
    ensures IndexOf(s, c) == |s| ==> c !in s
  {
    var i := IndexOf(s, c);
    if s != "" && s[0] != c {
      IndexOfFirst(s[1..], c);
      assert s[..i] == [s[0]] + s[1..][..i - 1];
      assert s == [s[0]] + s[1..];
    }
  }

  lemma {:induction false} IndexOfPrefix(a: string, b: string, c: char)
    requires c !in a
    ensures IndexOf(a + b, c) == |a| + IndexOf(b, c)
  {
    if a == "" {
      assert a + b == b;
    } else {
      assert (a + b)[1..] == a[1..] + b && a[0] in a;
      IndexOfPrefix(a[1..], b, c);
    }
  }

  lemma {:induction false} IndexOfAbsent(a: string, c: char)
    requires c !in a
    ensures IndexOf(a, c) == |a|
  {
    IndexOfPrefix(a, "", c);
    assert a + "" == a;
  }

  datatype CutResult = CutResult(before: string, after: string, found: bool)

  /** `strings.Cut` at a one-character separator. */
  function Cut(s: string, c: char): CutResult {
    var i := IndexOf(s, c);
    if i < |s| then CutResult(s[..i], s[i + 1..], true) else CutResult(s, "", false)
  }

  lemma {:induction false} CutAt(a: string, c: char, b: string)
    requires c !in a
    ensures Cut(a + [c] + b, c) == CutResult(a, b, true)
  {
    assert a + [c] + b == a + ([c] + b);
    IndexOfPrefix(a, [c] + b, c);
  }

  function Split(s: string, c: char): (parts: seq<string>)
    ensures parts != []
    decreases |s|
  {
    var i := IndexOf(s, c);
    if i == |s| then [s] else [s[..i]] + Split(s[i + 1..], c)
  }

  lemma {:induction false} SplitAt(a: string, c: char, b: string)
    requires c !in a
    ensures Split(a + [c] + b, c) == [a] + Split(b, c)
  {
    CutAt(a, c, b);
    assert a + [c] + b == a + ([c] + b);
    IndexOfPrefix(a, [c] + b, c);
    assert (a + [c] + b)[..|a|] == a && (a + [c] + b)[|a| + 1..] == b;
  }

  lemma {:induction false} SplitOnly(s: string, c: char)
    requires c !in s
    ensures Split(s, c) == [s]
  {
    IndexOfAbsent(s, c);
  }

  function Join(parts: seq<string>, sep: string): string {
    if parts == [] then ""
    else if |parts| == 1 then parts[0]
    else parts[0] + sep + Join(parts[1..], sep)
  }

  lemma {:induction false} SplitJoin(parts: seq<string>, c: char)
    requires parts != [] && forall k :: 0 <= k < |parts| ==> c !in parts[k]
    ensures Split(Join(parts, [c]), c) == parts
  {
    if |parts| > 1 {
      SplitJoin(parts[1..], c);
      SplitAt(parts[0], c, Join(parts[1..], [c]));
    }
  }

  lemma {:induction false} JoinChars(parts: seq<string>, sep: string, x: char)
    requires forall k :: 0 <= k < |parts| ==> x !in parts[k]
    requires x !in sep
    ensures x !in Join(parts, sep)
  {
    if |parts| > 1 {
      JoinChars(parts[1..], sep, x);
    }
  }

  // ----- trimming

  function TrimLeft(s: string, p: char -> bool): (t: string)
    ensures |t| <= |s|
  {
    if s != "" && p(s[0]) then TrimLeft(s[1..], p) else s
  }

  function TrimRight(s: string, p: char -> bool): (t: string)
    ensures |t| <= |s|
  {
    if s != "" && p(s[|s| - 1]) then TrimRight(s[..|s| - 1], p) else s
  }

  lemma {:induction false} TrimLeftIs(s: string, p: char -> bool)
    ensures var t := TrimLeft(s, p); t == s[|s| - |t|..] && (t != "" ==> !p(t[0]))
  {
    if s != "" && p(s[0]) {
      TrimLeftIs(s[1..], p);
    }
  }

  lemma {:induction false} TrimRightIs(s: string, p: char -> bool)
    ensures var t := TrimRight(s, p); t <= s && (t != "" ==> !p(t[|t| - 1]))
  {
    if s != "" && p(s[|s| - 1]) {
      TrimRightIs(s[..|s| - 1], p);
    }
  }

  function TrimSpace(s: string): string {
    TrimRight(TrimLeft(s, IsSpace), IsSpace)
  }

  predicate Trimmed(s: string) {
    s == "" || (!IsSpace(s[0]) && !IsSpace(s[|s| - 1]))
  }

  lemma {:induction false} TrimLeftAppend(a: string, s: string, p: char -> bool)
    requires AllOf(a, p)
    ensures TrimLeft(a + s, p) == TrimLeft(s, p)
  {
    if a == "" {
      assert a + s == s;
    } else {
      assert (a + s)[1..] == a[1..] + s;
      TrimLeftAppend(a[1..], s, p);
    }
  }

  lemma {:induction false} TrimRightAppend(s: string, e: string, p: char -> bool)
    requires AllOf(e, p)
    ensures TrimRight(s + e, p) == TrimRight(s, p)
  {
    if e == "" {
      assert s + e == s;
    } else {
      assert (s + e)[..|s + e| - 1] == s + e[..|e| - 1];
      TrimRightAppend(s, e[..|e| - 1], p);
    }
  }

  lemma {:induction false} TrimAway(s: string, p: char -> bool)
    requires AllOf(s, p)
    ensures TrimLeft(s, p) == "" && TrimRight(s, p) == ""
  {
    if s != "" {
      TrimAway(s[1..], p);
      TrimAway(s[..|s| - 1], p);
    }
  }

  lemma {:induction false} TrimRightNonBlank(s: string, p: char -> bool)
    requires s != "" && !p(s[0])
    ensures TrimRight(s, p) != "" && TrimRight(s, p)[0] == s[0]
  {
    if p(s[|s| - 1]) {
      TrimRightNonBlank(s[..|s| - 1], p);
    }
  }

  lemma {:induction false} TrimSpaceAround(a: string, s: string, e: string)
    requires AllOf(a, IsSpace) && AllOf(e, IsSpace) && Trimmed(s)
    ensures TrimSpace(a + s + e) == s
  {
    assert a + s + e == a + (s + e);
    TrimLeftAppend(a, s + e, IsSpace);
    if s == "" {
      assert s + e == e;
      TrimAway(e, IsSpace);
    } else {
      assert TrimLeft(s + e, IsSpace) == s + e;
      TrimRightAppend(s, e, IsSpace);
    }
  }

  lemma {:induction false} TrimSpaceIsTrimmed(s: string)
    ensures Trimmed(TrimSpace(s)) && TrimSpace(TrimSpace(s)) == TrimSpace(s)
  {
    var l := TrimLeft(s, IsSpace);
    TrimLeftIs(s, IsSpace);
    TrimRightIs(l, IsSpace);
    if l != "" {
      TrimRightNonBlank(l, IsSpace);
    }
    var t := TrimSpace(s);
    assert "" + t + "" == t;
    TrimSpaceAround("", t, "");
  }

  lemma {:induction false} TrimLeftSplit(s: string)
    ensures AllOf(s[..|s| - |TrimLeft(s, IsSpace)|], IsSpace)
  {
    if s != "" && IsSpace(s[0]) {
      TrimLeftSplit(s[1..]);
      var n := |s| - |TrimLeft(s, IsSpace)|;
      assert s[..n] == [s[0]] + s[1..][..n - 1];
    }
  }

  lemma {:induction false} TrimRightSplit(s: string)
    ensures AllOf(s[|TrimRight(s, IsSpace)|..], IsSpace)
  {
    if s != "" && IsSpace(s[|s| - 1]) {
      TrimRightSplit(s[..|s| - 1]);
    }
  }

  lemma {:induction false} TrimSpaceParts(s: string) returns (a: string, e: string)
    ensures AllOf(a, IsSpace) && AllOf(e, IsSpace) && s == a + TrimSpace(s) + e
  {
    var l := TrimLeft(s, IsSpace);
    TrimLeftIs(s, IsSpace);
    TrimRightIs(l, IsSpace);
    TrimLeftSplit(s);
    TrimRightSplit(l);
    var t := TrimSpace(s);
    a, e := s[..|s| - |l|], l[|t|..];
    Reassemble(s, l, t);
  }

  lemma {:induction false} Regroup(a: string, a': string, t: string, e': string, e: string)
    ensures a + (a' + t + e') + e == (a + a') + t + (e' + e)
  {
  }

  lemma {:induction false} AllOfAppend(a: string, b: string, p: char -> bool)
    ensures AllOf(a + b, p) <==> AllOf(a, p) && AllOf(b, p)
  {
    assert forall i :: 0 <= i < |a| ==> a[i] == (a + b)[i];
    assert forall i :: 0 <= i < |b| ==> b[i] == (a + b)[|a| + i];
  }

  lemma {:induction false} Reassemble(s: string, l: string, t: string)
    requires |l| <= |s| && l == s[|s| - |l|..] && t <= l
    ensures s == s[..|s| - |l|] + t + l[|t|..]
  {
  }

  /** White space around a string does not matter to `TrimSpace`. */
  lemma {:induction false} TrimSpaceSkips(a: string, s: string, e: string)
    requires AllOf(a, IsSpace) && AllOf(e, IsSpace)
    ensures TrimSpace(a + s + e) == TrimSpace(s)
  {
    var a', e' := TrimSpaceParts(s);
    var t := TrimSpace(s);
    TrimSpaceIsTrimmed(s);
    AllOfAppend(a, a', IsSpace);
    AllOfAppend(e', e, IsSpace);
    TrimSpaceAround(a + a', t, e' + e);
    Regroup(a, a', t, e', e);
  }

  // ----- case and white space

  function LowerChar(c: char): char {
    if 'A' <= c <= 'Z' then c - 'A' + 'a' else c
  }

  function ToLower(s: string): (t: string)
    ensures |t| == |s|
  {
    if s == "" then "" else [LowerChar(s[0])] + ToLower(s[1..])
  }

  lemma {:induction false} LowerAt(s: string)
    ensures forall i :: 0 <= i < |s| ==> ToLower(s)[i] == LowerChar(s[i])
  {
    if s != "" {
      LowerAt(s[1..]);
    }
  }

  lemma {:induction false} LowerTwice(s: string)
    ensures ToLower(ToLower(s)) == ToLower(s)
  {
    LowerAt(s);
    LowerAt(ToLower(s));
  }

  predicate EqualFold(a: string, b: string) {
    ToLower(a) == ToLower(b)
  }

  /** `stripWhitespace` of middleware/authres/dkim/verify.go. */
  function StripWhitespace(s: string): string {
    if s == "" then ""
    else if IsSpace(s[0]) then StripWhitespace(s[1..])
    else [s[0]] + StripWhitespace(s[1..])
  }

  lemma {:induction false} StripAppend(a: string, b: string)
    ensures StripWhitespace(a + b) == StripWhitespace(a) + StripWhitespace(b)
  {
    if a == "" {
      assert a + b == b;
    } else {
      assert (a + b)[1..] == a[1..] + b;
      StripAppend(a[1..], b);
    }
  }

  lemma {:induction false} StripClean(s: string)
    requires NoneOf(s, IsSpace)
    ensures StripWhitespace(s) == s
  {
    if s != "" {
      StripClean(s[1..]);
    }
  }

  lemma {:induction false} StripBlank(s: string)
    requires AllOf(s, IsSpace)
    ensures StripWhitespace(s) == ""
  {
    if s != "" {
      StripBlank(s[1..]);
    }
  }

  lemma {:induction false} StripTrim(s: string)
    ensures StripWhitespace(TrimSpace(s)) == StripWhitespace(s)
  {
    var a, e := TrimSpaceParts(s);
    StripAppend(a + TrimSpace(s), e);
    StripAppend(a, TrimSpace(s));
    StripBlank(a);
    StripBlank(e);
  }

  // ----- fields

  predicate AreWords(words: seq<string>, sep: char -> bool) {
    forall k :: 0 <= k < |words| ==> words[k] != "" && NoneOf(words[k], sep)
  }

  /** Length of the longest prefix without separators. */
  function WordLength(s: string, sep: char -> bool): (n: nat)
    ensures n <= |s| && (n < |s| ==> sep(s[n])) && forall j :: 0 <= j < n ==> !sep(s[j])
  {
    if s == "" || sep(s[0]) then 0 else 1 + WordLength(s[1..], sep)
  }

  /** `strings.FieldsFunc`: the maximal runs of non-separators. */
  function Fields(s: string, sep: char -> bool): seq<string>
    decreases |s|
  {
    if s == "" then []
    else if sep(s[0]) then Fields(s[1..], sep)
    else
      var n := WordLength(s, sep);
      [s[..n]] + Fields(s[n..], sep)
  }

  lemma {:induction false} WordLengthPrefix(a: string, b: string, sep: char -> bool)
    requires NoneOf(a, sep) && (b != "" ==> sep(b[0]))
    ensures WordLength(a + b, sep) == |a|
  {
    if a == "" {
      assert a + b == b;
    } else {
      assert (a + b)[1..] == a[1..] + b;
      WordLengthPrefix(a[1..], b, sep);
    }
  }

  /** A word in front of a separator. */
  lemma {:induction false} FieldsWord(w: string, b: string, sep: char -> bool)
    requires w != "" && NoneOf(w, sep) && (b != "" ==> sep(b[0]))
    ensures Fields(w + b, sep) == [w] + Fields(b, sep)
  {
    WordLengthPrefix(w, b, sep);
    assert (w + b)[..|w|] == w && (w + b)[|w|..] == b;
  }

  lemma {:induction false} FieldsBlank(s: string, sep: char -> bool)
    requires AllOf(s, sep)
    ensures Fields(s, sep) == []
  {
    if s != "" {
      FieldsBlank(s[1..], sep);
    }
  }

  /** Fields split at any non-empty run of separators. */
  lemma {:induction false} FieldsAppend(a: string, m: string, b: string, sep: char -> bool)
    requires AllOf(m, sep)
    requires m == "" ==> a == "" || b == "" || sep(b[0])
    ensures Fields(a + m + b, sep) == Fields(a, sep) + Fields(b, sep)
    decreases |a| + |m|
  {
    if a == "" {
      if m == "" {
        assert a + m + b == b;
      } else {
        DropFirst(m, b);
        FieldsAppend("", m[1..], b, sep);
      }
    } else if sep(a[0]) {
      assert (a + m + b)[1..] == a[1..] + m + b;
      FieldsAppend(a[1..], m, b, sep);
    } else {
      var n := WordLength(a, sep);
      var w, r := a[..n], a[n..];
      FieldsWord(w, r + m + b, sep);
      FieldsWord(w, r, sep);
      FieldsAppend(r, m, b, sep);
      Rejoin(a, n, m, b);
    }
  }

  lemma {:induction false} Halves(a: string, n: nat)
    requires n <= |a|
    ensures a == a[..n] + a[n..]
  {
  }

  lemma {:induction false} Rejoin(a: string, n: nat, m: string, b: string)
    requires n <= |a|
    ensures a + m + b == a[..n] + (a[n..] + m + b)
  {
    Halves(a, n);
  }

  lemma {:induction false} DropFirst(m: string, b: string)
    requires m != ""
    ensures ("" + m + b)[0] == m[0] && ("" + m + b)[1..] == "" + m[1..] + b
  {
  }

  lemma {:induction false} FieldsAreWords(s: string, sep: char -> bool)
    ensures AreWords(Fields(s, sep), sep)
    decreases |s|
  {
    if s != "" {
      if sep(s[0]) {
        FieldsAreWords(s[1..], sep);
      } else {
        FieldsAreWords(s[WordLength(s, sep)..], sep);
      }
    }
  }

  /** Words joined by one separator come apart again. */
  lemma {:induction false} FieldsJoin(words: seq<string>, c: char, sep: char -> bool)
    requires sep(c) && AreWords(words, sep)
    ensures Fields(Join(words, [c]), sep) == words
  {
    if words != [] {
      var w, rest := words[0], words[1..];
      FieldsJoin(rest, c, sep);
      if rest == [] {
        assert w + "" == w;
        FieldsWord(w, "", sep);
      } else {
        assert w + [c] + Join(rest, [c]) == w + ([c] + Join(rest, [c]));
        FieldsWord(w, [c] + Join(rest, [c]), sep);
        assert ([c] + Join(rest, [c]))[1..] == Join(rest, [c]);
      }
    }
  }

  lemma {:induction false} FieldsChars(s: string, sep: char -> bool, c: char)
    requires c !in s
    ensures forall k :: 0 <= k < |Fields(s, sep)| ==> c !in Fields(s, sep)[k]
    decreases |s|
  {
    if s != "" {
      FieldsChars(s[if sep(s[0]) then 1 else WordLength(s, sep)..], sep, c);
    }
  }

  lemma {:induction false} SplitChars(s: string, c: char)
    ensures forall k :: 0 <= k < |Split(s, c)| ==> c !in Split(s, c)[k]
    decreases |s|
  {
    IndexOfFirst(s, c);
    var i := IndexOf(s, c);
    if i < |s| {
      SplitChars(s[i + 1..], c);
    }
  }
}
