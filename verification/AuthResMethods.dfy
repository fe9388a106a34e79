/** What the text of each authentication method says, name by name, and what a whole field says. */
module AuthResMethods {
  import opened Text
  import opened Strings
  import opened Decimal
  import opened AuthRes
  import opened AuthResRoundTrip

  /** The last of the words that give `k` a value, in any case of letters, gives this one; without such a word, none. */
  function Told(words: seq<string>, k: string): string {
    if words == [] then ""
    else
      var c := Cut(words[|words| - 1], '=');
      if c.found && ToLower(c.before) == k then c.after else Told(words[..|words| - 1], k)
  }

  /** Some word gives `k` a value. */
  predicate Tells(words: seq<string>, k: string) {
    exists i :: 0 <= i < |words| && Cut(words[i], '=').found && ToLower(Cut(words[i], '=').before) == k
  }

  lemma {:induction false} ParsedWord(word: string)
    requires NoneOf(word, IsSpace)
    ensures var c := Cut(word, '=');
            ParseParam(word) == if c.found then Pair(ToLower(c.before), c.after) else Malformed
  {
    var c := Cut(word, '=');
    TrimClean(c.before);
    TrimClean(c.after);
  }

  lemma {:induction false} ToldIs(words: seq<string>, k: string)
    requires AreWords(words, IsSpace)
    ensures k in ParamsIn(words) <==> Tells(words, k)
    ensures Lookup(ParamsIn(words), k) == Told(words, k)
  {
    if words != [] {
      var init, last := words[..|words| - 1], words[|words| - 1];
      assert AreWords(init, IsSpace);
      ToldIs(init, k);
      ParsedWord(last);
      assert words == init + [last];
      TellsSnoc(init, last, k);
    }
  }

  lemma {:induction false} TellsSnoc(init: seq<string>, last: string, k: string)
    ensures Tells(init + [last], k)
            <==> Tells(init, k) || (Cut(last, '=').found && ToLower(Cut(last, '=').before) == k)
  {
    var words := init + [last];
    if Tells(init, k) {
      var i :| 0 <= i < |init| && Cut(init[i], '=').found && ToLower(Cut(init[i], '=').before) == k;
      assert words[i] == init[i];
    }
    assert words[|init|] == last;
    if Tells(words, k) {
      var i :| 0 <= i < |words| && Cut(words[i], '=').found && ToLower(Cut(words[i], '=').before) == k;
      assert i < |init| ==> words[i] == init[i];
    }
  }

  /** A segment: a method and a value, and words. */
  ghost predicate Reads(s: string, method': string, value: string, words: seq<string>) {
    && '=' !in method' && AreWords([method' + "=" + value] + words, IsSpace)
    && Fields(s, IsSpace) == [method' + "=" + value] + words
  }

  lemma {:induction false} SegmentReads(pick: set<string> -> string, s: string, m: string, v: string,
                                        words: seq<string>)
    requires Reads(s, m, v, words)
    ensures AreWords(words, IsSpace)
    ensures SegmentResult(pick, s) == FromParams(pick, ToLower(m), ToLower(v), ParamsIn(words))
  {
    var all := [m + "=" + v] + words;
    assert all[1..] == words && all[0] == m + "=" + v;
    forall i | 0 <= i < |words| ensures words[i] != "" && NoneOf(words[i], IsSpace) {
      assert words[i] == all[i + 1];
    }
    ParsedWord(m + "=" + v);
    CutAt(m, '=', v);
    assert (m + "=" + v)[|m|] == '=';
    assert '=' !in "none";
  }

  lemma {:induction false} SpfSays(pick: set<string> -> string, s: string, m: string, v: string, words: seq<string>)
    requires Reads(s, m, v, words) && ToLower(m) == "spf"
    ensures SegmentResult(pick, s)
         == Got(Spf(ToLower(v), Told(words, "reason"), Told(words, "smtp.mailfrom"), Told(words, "smtp.helo")))
  {
    SegmentReads(pick, s, m, v, words);
    ToldIs(words, "reason");
    ToldIs(words, "smtp.mailfrom");
    ToldIs(words, "smtp.helo");
  }

  lemma {:induction false} DmarcSays(pick: set<string> -> string, s: string, m: string, v: string, words: seq<string>)
    requires Reads(s, m, v, words) && ToLower(m) == "dmarc"
    ensures SegmentResult(pick, s) == Got(Dmarc(ToLower(v), Told(words, "reason"), Told(words, "header.from")))
  {
    SegmentReads(pick, s, m, v, words);
    ToldIs(words, "reason");
    ToldIs(words, "header.from");
  }

  lemma {:induction false} IPRevSays(pick: set<string> -> string, s: string, m: string, v: string, words: seq<string>)
    requires Reads(s, m, v, words) && ToLower(m) == "iprev"
    ensures SegmentResult(pick, s) == Got(IPRev(ToLower(v), Told(words, "reason"), Told(words, "policy.iprev")))
  {
    SegmentReads(pick, s, m, v, words);
    ToldIs(words, "reason");
    ToldIs(words, "policy.iprev");
  }

  lemma {:induction false} AuthSays(pick: set<string> -> string, s: string, m: string, v: string, words: seq<string>)
    requires Reads(s, m, v, words) && ToLower(m) == "auth"
    ensures SegmentResult(pick, s) == Got(Auth(ToLower(v), Told(words, "reason"), Told(words, "smtp.auth")))
  {
    SegmentReads(pick, s, m, v, words);
    ToldIs(words, "reason");
    ToldIs(words, "smtp.auth");
  }

  lemma {:induction false} DkimSays(pick: set<string> -> string, s: string, m: string, v: string, words: seq<string>)
    requires Reads(s, m, v, words) && ToLower(m) == "dkim"
    ensures SegmentResult(pick, s)
         == Got(Dkim(ToLower(v), Told(words, "reason"), Told(words, "header.d"), Told(words, "header.i"),
                     Told(words, "header.s"), Told(words, "header.b")))
  {
    SegmentReads(pick, s, m, v, words);
    ToldIs(words, "reason");
    ToldIs(words, "header.d");
    ToldIs(words, "header.i");
    ToldIs(words, "header.s");
    ToldIs(words, "header.b");
  }

  lemma {:induction false} DomainKeysSays(pick: set<string> -> string, s: string, m: string, v: string,
                                          words: seq<string>)
    requires Reads(s, m, v, words) && ToLower(m) == "domainkeys"
    ensures SegmentResult(pick, s)
         == Got(DomainKeys(ToLower(v), Told(words, "reason"), Told(words, "header.d"), Told(words, "header.from"),
                           Told(words, "header.sender")))
  {
    SegmentReads(pick, s, m, v, words);
    ToldIs(words, "reason");
    ToldIs(words, "header.d");
    ToldIs(words, "header.from");
    ToldIs(words, "header.sender");
  }

  /** ARC wants a positive number of the oldest pass, if one is given at all. */
  lemma {:induction false} ArcSays(pick: set<string> -> string, s: string, m: string, v: string, words: seq<string>)
    requires Reads(s, m, v, words) && ToLower(m) == "arc"
    ensures var n := ParseInt(Told(words, "header.oldest-pass"));
            SegmentResult(pick, s)
            == if !Tells(words, "header.oldest-pass") then Got(Arc(ToLower(v), Told(words, "smtp.remote-ip"), 0))
               else if n.Some? && n.value > 0 then Got(Arc(ToLower(v), Told(words, "smtp.remote-ip"), n.value))
               else Failed
  {
    SegmentReads(pick, s, m, v, words);
    ToldIs(words, "header.oldest-pass");
    ToldIs(words, "smtp.remote-ip");
  }

  /** A sender id names the header field in a property; with several of them it may be any. */
  lemma {:induction false} SenderIDSays(pick: set<string> -> string, s: string, m: string, v: string,
                                        words: seq<string>)
    requires Reads(s, m, v, words) && ToLower(m) == "sender-id" && Picks(pick)
    ensures var r := SegmentResult(pick, s);
            && r.Got? && r.result.SenderID? && r.result.value == ToLower(v) && r.result.reason == Told(words, "reason")
            && if exists key :: Tells(words, "header." + key) then
                 Tells(words, "header." + r.result.headerKey)
                 && r.result.headerValue == Told(words, "header." + r.result.headerKey)
               else r.result.headerKey == "" && r.result.headerValue == ""
  {
    SegmentReads(pick, s, m, v, words);
    ToldIs(words, "reason");
    var params := ParamsIn(words);
    var keys := HeaderKeys(params);
    if keys != {} {
      var k := pick(keys);
      assert k in params && "header." <= k;
      assert k == "header." + k[|HEADER|..];
      ToldIs(words, k);
    } else {
      forall key ensures !Tells(words, "header." + key) {
        ToldIs(words, "header." + key);
        assert "header." + key !in keys;
      }
    }
  }

  predicate IsMethod(m: string) {
    m in ["arc", "auth", "dkim", "domainkeys", "iprev", "sender-id", "spf", "dmarc"]
  }

  /** Any other method keeps its name and all its parameters. */
  lemma {:induction false} OtherSays(pick: set<string> -> string, s: string, m: string, v: string, words: seq<string>)
    requires Reads(s, m, v, words) && !IsMethod(ToLower(m))
    ensures var r := SegmentResult(pick, s);
            && r.Got? && r.result.Generic? && r.result.method' == ToLower(m) && r.result.value == ToLower(v)
            && forall k :: (k in r.result.params <==> Tells(words, k))
                           && (k in r.result.params ==> r.result.params[k] == Told(words, k))
  {
    SegmentReads(pick, s, m, v, words);
    NotAMethod(ToLower(m));
    forall k ensures (k in ParamsIn(words) <==> Tells(words, k)) && Lookup(ParamsIn(words), k) == Told(words, k) {
      ToldIs(words, k);
    }
  }

  lemma {:induction false} NotAMethod(m: string)
    requires !IsMethod(m)
    ensures m != "arc" && m != "auth" && m != "dkim" && m != "domainkeys" && m != "iprev" && m != "sender-id"
    ensures m != "spf" && m != "dmarc"
  {
    var all := ["arc", "auth", "dkim", "domainkeys", "iprev", "sender-id", "spf", "dmarc"];
    assert all[0] == "arc" && all[1] == "auth" && all[2] == "dkim" && all[3] == "domainkeys";
    assert all[4] == "iprev" && all[5] == "sender-id" && all[6] == "spf" && all[7] == "dmarc";
  }

  /** No word, or `none` as the first one, says nothing; a first word without `=` is an error. */
  lemma {:induction false} NothingOrFailure(pick: set<string> -> string, s: string, words: seq<string>)
    requires Fields(s, IsSpace) == words
    ensures words == [] || words[0] == "none" ==> SegmentResult(pick, s) == Nothing
    ensures words != [] && words[0] != "none" && '=' !in words[0] ==> SegmentResult(pick, s) == Failed
  {
    if words != [] && '=' !in words[0] {
      IndexOfAbsent(words[0], '=');
    }
  }

  // ----- the whole field

  /** The results of the segments, as long as none fails; those that say nothing are left out. */
  function Collected(says: seq<Parsing>): Results {
    if says == [] then Results([], false)
    else if says[0].Failed? then Results([], true)
    else
      var rest := Collected(says[1..]);
      if says[0].Got? then Results([says[0].result] + rest.list, rest.failed) else rest
  }

  lemma {:induction false} SegmentsSay(pick: set<string> -> string, segments: seq<string>, says: seq<Parsing>)
    requires |segments| == |says|
    requires forall i :: 0 <= i < |says| ==> SegmentResult(pick, TrimSpace(segments[i])) == says[i]
    ensures SegmentResults(pick, segments) == Collected(says)
  {
    if segments != [] {
      SegmentsSay(pick, segments[1..], says[1..]);
    }
  }

  /** A word, and after it nothing but possibly the version 1. */
  lemma {:induction false} IdentifierIs(a: string, id: string, gap: string, version: string, e: string)
    requires AllOf(a, IsSpace) && AllOf(e, IsSpace) && id != "" && NoneOf(id, IsSpace)
    requires gap != "" && AllOf(gap, IsSpace) && version != "" && Trimmed(version)
    ensures Identifier(a + id + e) == Some(id)
    ensures Identifier(a + (id + gap + version) + e) == if version == "1" then Some(id) else None
  {
    TrimSpaceAround(a, id, e);
    TrimSpaceAround(a, id + gap + version, e);
    WordLengthPrefix(id, "", IsSpace);
    assert id + "" == id;
    WordLengthPrefix(id, gap + version, IsSpace);
    assert id + gap + version == id + (gap + version);
    assert (id + (gap + version))[|id|..] == gap + version && (id + (gap + version))[..|id|] == id;
    assert gap + version + "" == gap + version;
    TrimSpaceAround(gap, version, "");
  }

  /** The identifier comes before the first semicolon, and between two semicolons there is a segment. */
  lemma {:induction false} FieldSays(pick: set<string> -> string, first: string, segments: seq<string>,
                                     says: seq<Parsing>)
    requires ';' !in first && |segments| == |says|
    requires forall i :: 0 <= i < |segments| ==> ';' !in segments[i]
    requires forall i :: 0 <= i < |says| ==> SegmentResult(pick, TrimSpace(segments[i])) == says[i]
    ensures ParsedField(pick, Join([first] + segments, ";"))
         == match Identifier(first)
            case None => Parsed("", [], true)
            case Some(id) => Parsed(id, Collected(says).list, Collected(says).failed)
  {
    SplitJoin([first] + segments, ';');
    assert ([first] + segments)[1..] == segments;
    SegmentsSay(pick, segments, says);
  }

  // ----- an example of each side: SPF

  lemma {:induction false} SegmentWords(head: string, words: seq<string>)
    requires head != "" && NoneOf(head, IsSpace) && AreWords(words, IsSpace)
    ensures Fields(TrimSpace(" " + head + " " + Join(words, " ")), IsSpace) == [head] + words
  {
    var rest := " " + Join(words, " ");
    FieldsTrim(" " + head + " " + Join(words, " "));
    FieldsAppend("", " ", head + rest, IsSpace);
    FieldsWord(head, rest, IsSpace);
    FieldsAppend("", " ", Join(words, " "), IsSpace);
    FieldsJoin(words, ' ', IsSpace);
    SegmentText(" ", head, Join(words, " "));
  }

  lemma {:induction false} ToldLast(words: seq<string>, w: string, v: string, k: string)
    requires '=' !in w
    ensures Told(words + [w + "=" + v], k) == if ToLower(w) == k then v else Told(words, k)
  {
    CutAt(w, '=', v);
    assert (words + [w + "=" + v])[..|words|] == words;
  }

  lemma {:induction false} SpfNames()
    ensures ToLower("spf") == "spf" && ToLower("smtp.mailfrom") == "smtp.mailfrom"
    ensures ToLower("smtp.helo") == "smtp.helo"
  {
    ShortMethodNames();
    SmtpNames();
    LowerName("spf");
    LowerName("smtp.mailfrom");
    LowerName("smtp.helo");
  }

  /** A blank, the method with its value, and the words, one blank apart. */
  function Sentence(head: string, words: seq<string>): string {
    " " + head + " " + Join(words, " ")
  }

  lemma {:induction false} HeadIsWord(m: string, v: string)
    requires NoneOf(m, IsSpace) && NoneOf(v, IsSpace)
    ensures m + "=" + v != "" && NoneOf(m + "=" + v, IsSpace)
  {
    assert (m + "=" + v)[|m|] == '=';
  }

  lemma {:induction false} SentenceReads(m: string, v: string, words: seq<string>)
    requires '=' !in m && NoneOf(m, IsSpace) && NoneOf(v, IsSpace) && AreWords(words, IsSpace)
    ensures Reads(TrimSpace(Sentence(m + "=" + v, words)), m, v, words)
  {
    HeadIsWord(m, v);
    SegmentWords(m + "=" + v, words);
  }

  lemma {:induction false} OneSentence(pick: set<string> -> string, id: string, segment: string, r: Result)
    requires IsClean(id) && ';' !in segment && SegmentResult(pick, TrimSpace(segment)) == Got(r)
    ensures ParsedField(pick, id + ";" + segment) == Parsed(id, [r], false)
  {
    FieldSays(pick, id, [segment], [Got(r)]);
    JoinTwo(id, segment);
    CleanIdentifier(id);
    assert [Got(r)][1..] == [] && [r] + [] == [r];
  }

  lemma {:induction false} SpfSpelled()
    ensures "smtp.mailfrom" + "=" == "smtp.mailfrom=" && "smtp.helo" + "=" == "smtp.helo=" && "spf" + "=" == "spf="
    ensures "smtp.mailfrom" != "reason" && "smtp.helo" != "reason" && "smtp.mailfrom" != "smtp.helo"
  {
    assert |"smtp.mailfrom"| == 13 && |"smtp.helo"| == 9;
  }

  lemma {:induction false} SpfTold(x: string, y: string)
    ensures var words := ["smtp.mailfrom=" + x, "smtp.helo=" + y];
            Told(words, "reason") == "" && Told(words, "smtp.mailfrom") == x && Told(words, "smtp.helo") == y
  {
    SpfNames();
    SmtpNames();
    SpfSpelled();
    SpfToldIn("smtp.mailfrom", x, "smtp.helo", y, "reason");
  }

  lemma {:induction false} SpfToldSwapped(x: string, y: string)
    ensures var words := ["smtp.helo=" + y, "smtp.mailfrom=" + x];
            Told(words, "reason") == "" && Told(words, "smtp.mailfrom") == x && Told(words, "smtp.helo") == y
  {
    SpfNames();
    SmtpNames();
    SpfSpelled();
    SpfToldIn("smtp.helo", y, "smtp.mailfrom", x, "reason");
  }

  lemma {:induction false} SpfToldIn(a: string, x: string, b: string, y: string, other: string)
    requires '=' !in a && '=' !in b && ToLower(a) == a && ToLower(b) == b && a != b && other != a && other != b
    ensures var words := [a + "=" + x, b + "=" + y];
            Told(words, a) == x && Told(words, b) == y && Told(words, other) == ""
  {
    var one := [a + "=" + x];
    assert [] + [a + "=" + x] == one && one + [b + "=" + y] == [a + "=" + x, b + "=" + y];
    ToldLast([], a, x, a);
    ToldLast([], a, x, b);
    ToldLast([], a, x, other);
    ToldLast(one, b, y, a);
    ToldLast(one, b, y, b);
    ToldLast(one, b, y, other);
  }

  lemma {:induction false} SpfWordsAreClean(v: string, x: string, y: string)
    requires IsClean(v) && IsClean(x) && IsClean(y)
    ensures var a, b := "smtp.mailfrom=" + x, "smtp.helo=" + y;
            && AreWords([a, b], IsSpace) && AreWords([b, a], IsSpace)
            && ';' !in Sentence("spf=" + v, [a, b]) && ';' !in Sentence("spf=" + v, [b, a])
  {
    var a, b := "smtp.mailfrom=" + x, "smtp.helo=" + y;
    SmtpNames();
    ShortMethodNames();
    WordIsClean("smtp.mailfrom", x);
    WordIsClean("smtp.helo", y);
    WordIsClean("spf", v);
    SpfSpelled();
    JoinChars([a, b], " ", ';');
    JoinChars([b, a], " ", ';');
  }

  /** An SPF result says the same in either order of its words. */
  lemma {:induction false} SpfField(pick: set<string> -> string, id: string, v: string, x: string, y: string)
    requires IsClean(id) && IsClean(v) && IsClean(x) && IsClean(y)
    ensures var a, b, r := "smtp.mailfrom=" + x, "smtp.helo=" + y, Spf(ToLower(v), "", x, y);
            && ParsedField(pick, id + ";" + Sentence("spf=" + v, [a, b])) == Parsed(id, [r], false)
            && ParsedField(pick, id + ";" + Sentence("spf=" + v, [b, a])) == Parsed(id, [r], false)
  {
    var a, b := "smtp.mailfrom=" + x, "smtp.helo=" + y;
    SpfWordsAreClean(v, x, y);
    SpfTold(x, y);
    SpfToldSwapped(x, y);
    SpfSentence(pick, id, v, x, y, [a, b]);
    SpfSentence(pick, id, v, x, y, [b, a]);
  }

  lemma {:induction false} SpfSentence(pick: set<string> -> string, id: string, v: string, x: string, y: string,
                                       words: seq<string>)
    requires IsClean(id) && IsClean(v) && AreWords(words, IsSpace) && ';' !in Sentence("spf=" + v, words)
    requires Told(words, "reason") == "" && Told(words, "smtp.mailfrom") == x && Told(words, "smtp.helo") == y
    ensures ParsedField(pick, id + ";" + Sentence("spf=" + v, words)) == Parsed(id, [Spf(ToLower(v), "", x, y)], false)
  {
    ShortMethodNames();
    SpfNames();
    SpfSpelled();
    SentenceReads("spf", v, words);
    SpfSays(pick, TrimSpace(Sentence("spf=" + v, words)), "spf", v, words);
    OneSentence(pick, id, Sentence("spf=" + v, words), Spf(ToLower(v), "", x, y));
  }
}
