/**
 What header fields mean, character by character: the relaxed form of every
 field, the name of a field, and reading a header back from its text.
 */
module HeaderLaws {
  import opened Text
  import opened Strings
  import opened BodyCanonical
  import opened Header
  import opened HeaderCanonical

  // ----- characters

  /** The white space of each kind, by character. */
  lemma {:induction false} WhiteSpaceIs(c: char)
    ensures IsSpace(c) <==> c in {' ', '\t', '\n', '\U{000B}', '\U{000C}', '\r'}
    ensures IsFws(c) <==> c in {' ', '\t', '\n', '\r'}
    ensures IsWsp(c) <==> c in {' ', '\t'}
    ensures IsLineEnd(c) <==> c in {'\n', '\r'}
  {
  }

  // ----- lower case

  /** `t` is `s` with the letters A to Z replaced by those 32 places further on, and nothing else changed. */
  predicate IsLowered(s: string, t: string) {
    && |t| == |s|
    && forall i :: 0 <= i < |s| ==>
         t[i] as int == if 'A' <= s[i] <= 'Z' then s[i] as int + 32 else s[i] as int
  }

  lemma {:induction false} LowerIsLowered(s: string)
    ensures IsLowered(s, ToLower(s))
  {
    LowerAt(s);
  }

  lemma {:induction false} LowerAppend(a: string, b: string)
    ensures ToLower(a + b) == ToLower(a) + ToLower(b)
  {
    LowerAt(a + b);
    LowerAt(a);
    LowerAt(b);
  }

  lemma {:induction false} LowerParts(a: string, t: string, e: string)
    ensures ToLower(a + t + e) == ToLower(a) + ToLower(t) + ToLower(e)
  {
    LowerAppend(a + t, e);
    LowerAppend(a, t);
  }

  lemma {:induction false} LowerBlank(s: string)
    ensures AllOf(s, IsSpace) <==> AllOf(ToLower(s), IsSpace)
    ensures Trimmed(s) <==> Trimmed(ToLower(s))
  {
    LowerAt(s);
    if AllOf(ToLower(s), IsSpace) {
      forall i | 0 <= i < |s| ensures IsSpace(s[i]) {
        assert IsSpace(ToLower(s)[i]);
      }
    }
  }

  /** Case and white space around do not meet. */
  lemma {:induction false} TrimLower(s: string)
    ensures TrimSpace(ToLower(s)) == ToLower(TrimSpace(s))
  {
    var a, e := TrimSpaceParts(s);
    var t := TrimSpace(s);
    TrimSpaceIsTrimmed(s);
    LowerParts(a, t, e);
    LowerBlank(a);
    LowerBlank(e);
    LowerBlank(t);
    TrimSpaceAround(ToLower(a), ToLower(t), ToLower(e));
  }

  // ----- the relaxed form

  /** Words with white space in front of, between and behind them. */
  function Spread(words: seq<string>, gaps: seq<string>): string
    requires |gaps| == |words| + 1
  {
    if words == [] then gaps[0] else gaps[0] + words[0] + Spread(words[1..], gaps[1..])
  }

  /** The gaps are folding white space, and those between two words are not empty. */
  predicate AreGaps(gaps: seq<string>) {
    && (forall i :: 0 <= i < |gaps| ==> AllOf(gaps[i], IsFws))
    && (forall i :: 0 < i < |gaps| - 1 ==> gaps[i] != "")
  }

  lemma {:induction false} SpreadFields(words: seq<string>, gaps: seq<string>)
    requires |gaps| == |words| + 1 && AreWords(words, IsFws) && AreGaps(gaps)
    ensures Fields(Spread(words, gaps), IsFws) == words
  {
    if words == [] {
      FieldsBlank(gaps[0], IsFws);
    } else {
      var rest := Spread(words[1..], gaps[1..]);
      SpreadFields(words[1..], gaps[1..]);
      SpreadStarts(words[1..], gaps[1..]);
      FieldsWord(words[0], rest, IsFws);
      FieldsAppend("", gaps[0], words[0] + rest, IsFws);
      LeadingGap(gaps[0], words[0], rest);
    }
  }

  lemma {:induction false} LeadingGap(g: string, w: string, rest: string)
    ensures "" + g + (w + rest) == g + w + rest
  {
  }

  lemma {:induction false} SpreadStarts(words: seq<string>, gaps: seq<string>)
    requires |gaps| == |words| + 1 && AllOf(gaps[0], IsFws) && (words != [] ==> gaps[0] != "")
    ensures Spread(words, gaps) != "" ==> IsFws(Spread(words, gaps)[0])
  {
  }

  lemma {:induction false} SpreadCons(g: string, w: string, words: seq<string>, gaps: seq<string>)
    requires |gaps| == |words| + 1
    ensures Spread([w] + words, [g] + gaps) == g + w + Spread(words, gaps)
  {
    assert ([w] + words)[1..] == words && ([g] + gaps)[1..] == gaps;
  }

  /** The length of the white space at the start. */
  function GapLength(v: string): (n: nat)
    ensures n <= |v| && AllOf(v[..n], IsFws) && (n < |v| ==> !IsFws(v[n]))
  {
    if v == "" || !IsFws(v[0]) then 0
    else
      assert v[..1 + GapLength(v[1..])] == [v[0]] + v[1..][..GapLength(v[1..])];
      1 + GapLength(v[1..])
  }

  lemma {:induction false} GapsCons(g: string, words: seq<string>, gaps: seq<string>)
    requires AreGaps(gaps) && |gaps| == |words| + 1 && AllOf(g, IsFws) && (words != [] ==> gaps[0] != "")
    ensures AreGaps([g] + gaps)
  {
    var all := [g] + gaps;
    forall i | 0 < i < |all| - 1 ensures all[i] != "" {
      assert all[i] == gaps[i - 1];
    }
  }

  lemma {:induction false} WordsCons(w: string, words: seq<string>)
    requires AreWords(words, IsFws) && w != "" && NoneOf(w, IsFws)
    ensures AreWords([w] + words, IsFws)
  {
  }

  lemma {:induction false} WordBetween(v: string, n: nat, m: nat)
    requires n + m <= |v|
    ensures v == v[..n] + v[n..][..m] + v[n..][m..]
  {
  }

  /** Every text is words spread in this way. */
  lemma {:induction false} EveryTextIsSpread(v: string) returns (words: seq<string>, gaps: seq<string>)
    ensures |gaps| == |words| + 1 && AreWords(words, IsFws) && AreGaps(gaps) && Spread(words, gaps) == v
    ensures if v == "" then words == [] else IsFws(v[0]) ==> gaps[0] != ""
    decreases |v|
  {
    var n := GapLength(v);
    var w := v[n..];
    if w == "" {
      words, gaps := [], [v];
      assert v[..n] == v;
    } else {
      var m := WordLength(w, IsFws);
      var ws, gs := EveryTextIsSpread(w[m..]);
      words, gaps := [w[..m]] + ws, [v[..n]] + gs;
      WordsCons(w[..m], ws);
      GapsCons(v[..n], ws, gs);
      SpreadCons(v[..n], w[..m], ws, gs);
      WordBetween(v, n, m);
    }
  }

  /**
   The relaxed form of every field (`EveryTextIsSpread`): the name trimmed and in
   lower case, the colon, and the words of the value one blank apart.
   */
  lemma {:induction false} RelaxedFieldIs(k: string, words: seq<string>, gaps: seq<string>)
    requires ':' !in k && |gaps| == |words| + 1 && AreWords(words, IsFws) && AreGaps(gaps)
    ensures RelaxHeader(k + ":" + Spread(words, gaps)) == ToLower(TrimSpace(k)) + ":" + Join(words, " ") + "\r\n"
    ensures IsLowered(TrimSpace(k), ToLower(TrimSpace(k))) && Trimmed(TrimSpace(k))
  {
    RelaxCut(k, Spread(words, gaps));
    SpreadFields(words, gaps);
    TrimLower(k);
    LowerIsLowered(TrimSpace(k));
    TrimSpaceIsTrimmed(k);
  }

  /** A field without a colon is all name. */
  lemma {:induction false} RelaxedWithoutColon(s: string)
    requires ':' !in s
    ensures RelaxHeader(s) == ToLower(TrimSpace(s)) + ":\r\n"
  {
    IndexOfAbsent(s, ':');
    TrimLower(s);
  }

  /** The case of the name does not show. */
  lemma {:induction false} RelaxedIgnoresNameCase(k: string, k': string, v: string)
    requires EqualFold(k, k') && ':' !in k && ':' !in k'
    ensures RelaxHeader(k + ":" + v) == RelaxHeader(k' + ":" + v)
  {
    RelaxCut(k, v);
    RelaxCut(k', v);
  }

  /** Of the value nothing but white space is lost, and nothing is added. */
  lemma {:induction false} RelaxedKeepsText(k: string, v: string)
    requires ':' !in k
    ensures var c := Cut(RelaxHeader(k + ":" + v), ':');
            c.found && c.before == ToLower(TrimSpace(k)) && StripWhitespace(c.after) == StripWhitespace(v)
  {
    var words, gaps := EveryTextIsSpread(v);
    RelaxedFieldIs(k, words, gaps);
    StripSpread(words, gaps);
    StripJoined(words);
    TrimLower(k);
    RelaxNameHasNoColon(k);
    var j := Join(words, " ");
    CutAt(ToLower(TrimSpace(k)), ':', j + CRLF);
    RelaxedText(ToLower(TrimSpace(k)), j);
    StripAppend(j, CRLF);
    StripBlank(CRLF);
  }

  function StrippedWords(words: seq<string>): string {
    if words == [] then "" else StripWhitespace(words[0]) + StrippedWords(words[1..])
  }

  lemma {:induction false} StripSpread(words: seq<string>, gaps: seq<string>)
    requires |gaps| == |words| + 1 && AreGaps(gaps)
    ensures StripWhitespace(Spread(words, gaps)) == StrippedWords(words)
  {
    StripBlank(gaps[0]);
    if words != [] {
      StripSpread(words[1..], gaps[1..]);
      StripAppend(gaps[0] + words[0], Spread(words[1..], gaps[1..]));
      StripAppend(gaps[0], words[0]);
    }
  }

  lemma {:induction false} StripJoined(words: seq<string>)
    ensures StripWhitespace(Join(words, " ")) == StrippedWords(words)
  {
    if |words| == 1 {
      assert StrippedWords(words[1..]) == "";
    } else if words != [] {
      StripJoined(words[1..]);
      StripAppend(words[0] + " ", Join(words[1..], " "));
      StripAppend(words[0], " ");
      StripBlank(" ");
    }
  }

  // ----- names

  /** The name of a field is what stands before its first colon, without white space around it. */
  lemma {:induction false} NameIs(a: string, k: string, e: string, v: string)
    requires AllOf(a, IsSpace) && AllOf(e, IsSpace) && Trimmed(k) && ':' !in k
    ensures ParseField(a + k + e + ":" + v) == (k, TrimSpace(v)) && Name(a + k + e + ":" + v) == k
  {
    assert ':' !in a + k + e by {
      assert forall i :: 0 <= i < |a| ==> IsSpace(a[i]);
      assert forall i :: 0 <= i < |e| ==> IsSpace(e[i]);
    }
    CutAt(a + k + e, ':', v);
    TrimSpaceAround(a, k, e);
  }

  // ----- reading

  /** The text of a header, with the empty line that ends it. */
  function HeaderText(h: seq<string>, body: string): string {
    Concat(h) + CRLF + body
  }

  lemma {:induction false} HeaderTextCons(x: string, h: seq<string>, body: string)
    ensures HeaderText([x] + h, body) == x + HeaderText(h, body)
  {
    assert ([x] + h)[1..] == h;
    ConcatAssoc(x, Concat(h), CRLF);
    ConcatAssoc(x, Concat(h) + CRLF, body);
  }

  lemma {:induction false} NoFields(body: string)
    ensures ReadHeader(HeaderText([], body)) == Header([], body) && StartsField(HeaderText([], body))
  {
    assert "" + CRLF + body == ("" + "\r") + ("\n" + body);
    ReadTerminated("", body);
  }

  /** Complete fields, of which only the first may start with white space. */
  predicate AreFields(h: seq<string>) {
    forall i :: 0 <= i < |h| ==> Closed(h[i]) && (i > 0 ==> !IsWsp(h[i][0]))
  }

  /** Every header of complete fields is read back as it was written, and the body is what follows the empty line. */
  lemma {:induction false} ReadWritten(h: seq<string>, body: string)
    requires AreFields(h)
    ensures ReadHeader(HeaderText(h, body)) == Header(h, body)
    ensures h == [] || !IsWsp(h[0][0]) ==> StartsField(HeaderText(h, body))
  {
    if h == [] {
      NoFields(body);
    } else {
      assert AreFields(h[1..]);
      ReadWritten(h[1..], body);
      assert h == [h[0]] + h[1..];
      HeaderTextCons(h[0], h[1..], body);
      ReadPrepended(h[0], HeaderText(h[1..], body));
    }
  }

  /** An empty line, with either line end, starts at `i`. */
  predicate EmptyLineAt(s: string, i: int)
    requires 0 <= i < |s|
  {
    && (i == 0 || s[i - 1] == '\n')
    && (s[i] == '\n' || (s[i] == '\r' && i + 1 < |s| && s[i + 1] == '\n'))
  }

  ghost predicate HasEmptyLine(s: string) {
    exists i :: 0 <= i < |s| && EmptyLineAt(s, i)
  }

  lemma {:induction false} NoBreaks(s: string, n: nat)
    requires 0 < n <= |s| && '\n' !in s[..n - 1]
    ensures forall i :: 0 <= i < n - 1 ==> s[i] != '\n'
  {
    forall i | 0 <= i < n - 1 ensures s[i] != '\n' {
      assert s[..n - 1][i] == s[i];
    }
  }

  lemma {:induction false} EmptyLineInRest(s: string, n: nat)
    requires 0 < n <= |s| && s[n - 1] == '\n' && '\n' !in s[..n - 1] && !EmptyLineAt(s, 0)
    ensures HasEmptyLine(s) <==> HasEmptyLine(s[n..])
  {
    var rest := s[n..];
    NoBreaks(s, n);
    if HasEmptyLine(s) {
      var i :| 0 <= i < |s| && EmptyLineAt(s, i);
      assert EmptyLineAt(rest, i - n);
    }
    if HasEmptyLine(rest) {
      var i :| 0 <= i < |rest| && EmptyLineAt(rest, i);
      assert EmptyLineAt(s, i + n);
    }
  }

  lemma {:induction false} FirstLineEmpty(s: string)
    requires s != "" && '\n' in s
    ensures ReadLine(s).Some? && (ReadLine(s).value.0 == "" <==> EmptyLineAt(s, 0))
  {
    var i := IndexOf(s, '\n');
    IndexOfFirst(s, '\n');
    if i > 0 {
      assert s[0] == s[..i][0];
    }
    if i > 1 {
      assert s[1] == s[..i][1];
    }
  }

  lemma {:induction false} UnendedLine(s: string)
    requires s != "" && '\n' !in s
    ensures ReadLine(s) == Some((s, "")) && !HasEmptyLine(s)
  {
    IndexOfAbsent(s, '\n');
  }

  /** Reading fails exactly when no empty line ends the header. */
  lemma {:induction false} FailsWithoutEmptyLine(s: string, h: seq<string>)
    ensures ReadFrom(s, h) == UnexpectedEOF <==> !HasEmptyLine(s)
    decreases |s|
  {
    if s != "" {
      if '\n' in s {
        FirstLineEmpty(s);
        var (l, rest) := ReadLine(s).value;
        if l != "" {
          var n := IndexOf(s, '\n') + 1;
          IndexOfFirst(s, '\n');
          assert rest == s[n..];
          EmptyLineInRest(s, n);
          FailsWithoutEmptyLine(rest, AddLine(h, l));
        }
      } else {
        UnendedLine(s);
        FailsWithoutEmptyLine("", AddLine(h, s));
      }
    }
  }

  lemma {:induction false} ReadUnterminated(l: string, rest: string)
    requires '\n' !in l && (l != "" ==> l[|l| - 1] != '\r')
    ensures ReadLine(l + "\n" + rest) == Some((l, rest)) == ReadLine(l + CRLF + rest)
  {
    assert l + "\n" + rest == l + ("\n" + rest);
    IndexOfPrefix(l, "\n" + rest, '\n');
    assert (l + "\n" + rest)[..|l|] == l && (l + "\n" + rest)[|l| + 1..] == rest;
    assert l + CRLF + rest == (l + "\r") + ("\n" + rest);
    ReadTerminated(l, rest);
  }

  /** The first line of text that ends in LF does not depend on what follows. */
  lemma {:induction false} LineInFront(pre: string, m: string)
    requires pre != "" && pre[|pre| - 1] == '\n'
    ensures var i := IndexOf(pre, '\n');
            i < |pre| && ReadLine(pre + m) == Some((DropCR(pre[..i]), pre[i + 1..] + m))
  {
    IndexOfFirst(pre, '\n');
    assert pre[|pre| - 1] in pre;
    var i := IndexOf(pre, '\n');
    assert pre + m == pre[..i] + (pre[i..] + m);
    IndexOfPrefix(pre[..i], pre[i..] + m, '\n');
    assert (pre + m)[..i] == pre[..i] && (pre + m)[i + 1..] == pre[i + 1..] + m;
  }

  lemma {:induction false} NonEmptyFirst(pre: string)
    requires pre != "" && pre[|pre| - 1] == '\n' && !HasEmptyLine(pre)
    ensures var i := IndexOf(pre, '\n'); i < |pre| && DropCR(pre[..i]) != "" && !HasEmptyLine(pre[i + 1..])
  {
    assert pre[|pre| - 1] in pre;
    IndexOfFirst(pre, '\n');
    FirstLineEmpty(pre);
    assert !EmptyLineAt(pre, 0);
    EmptyLineInRest(pre, IndexOf(pre, '\n') + 1);
  }

  /** A line of the header may end in LF alone: it is read as if it ended in CRLF. */
  lemma {:induction false} BareLineFeed(pre: string, l: string, rest: string, h: seq<string>)
    requires (pre == "" || pre[|pre| - 1] == '\n') && !HasEmptyLine(pre)
    requires '\n' !in l && (l != "" ==> l[|l| - 1] != '\r')
    ensures ReadFrom(pre + (l + "\n" + rest), h) == ReadFrom(pre + (l + CRLF + rest), h)
    decreases |pre|
  {
    var m, m' := l + "\n" + rest, l + CRLF + rest;
    if pre == "" {
      assert pre + m == m && pre + m' == m';
      ReadUnterminated(l, rest);
    } else {
      LineInFront(pre, m);
      LineInFront(pre, m');
      var i := IndexOf(pre, '\n');
      NonEmptyFirst(pre);
      BareLineFeed(pre[i + 1..], l, rest, AddLine(h, DropCR(pre[..i])));
    }
  }
}
