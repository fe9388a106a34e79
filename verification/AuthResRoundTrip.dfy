/**
 When parsing gives back what was printed: exactly for results whose texts are
 free of white space and semicolons and need no quotes.
 */
module AuthResRoundTrip {
  import opened Text
  import opened Strings
  import opened Decimal
  import opened AuthRes

  /** Text that no split, trim or field cut touches. */
  predicate IsClean(s: string) {
    NoneOf(s, IsSpace) && ';' !in s
  }

  predicate IsUpper(c: char) {
    'A' <= c <= 'Z'
  }

  /** A method or a parameter name as parsing gives it. */
  predicate IsName(k: string) {
    IsClean(k) && '=' !in k && NoneOf(k, IsUpper)
  }

  // ----- printed text is clean

  lemma {:induction false} EscapedIsClean(s: string)
    requires IsClean(s)
    ensures IsClean(EscapeQuotes(s))
  {
    if s != "" {
      EscapedIsClean(s[1..]);
    }
  }

  lemma {:induction false} PrintedIsClean(k: string, v: string)
    requires IsClean(v)
    ensures IsClean(Printed(k, v))
  {
    EscapedIsClean(v);
  }

  lemma {:induction false} EscapeGrows(s: string)
    ensures |EscapeQuotes(s)| >= |s|
  {
    if s != "" {
      EscapeGrows(s[1..]);
    }
  }

  predicate Unquoted(k: string, v: string) {
    if k == "reason" then NoneOf(v, IsSpecial) else AllOf(v, IsAddressChar) || NoneOf(v, IsSpecial)
  }

  lemma {:induction false} UnquotedIs(k: string, v: string)
    ensures Unquoted(k, v) <==> Printed(k, v) == v
  {
    if !Unquoted(k, v) {
      EscapeGrows(v);
    }
  }

  /** Text that prints without quotes has no semicolon and no white space. */
  lemma {:induction false} UnquotedIsClean(k: string, v: string)
    requires Printed(k, v) == v
    ensures IsClean(v)
  {
    UnquotedIs(k, v);
    forall i | 0 <= i < |v| ensures !IsSpace(v[i]) && v[i] != ';' {
      SafeChar(v[i]);
    }
  }

  lemma {:induction false} SafeChar(c: char)
    requires IsAddressChar(c) || !IsSpecial(c)
    ensures !IsSpace(c) && c != ';'
  {
    assert ';' in TSPECIALS && ';' !in ADDRESS_OK && forall x :: x in ADDRESS_OK ==> x > ' ';
  }

  lemma {:induction false} LowerName(k: string)
    ensures NoneOf(k, IsUpper) <==> ToLower(k) == k
  {
    LowerAt(k);
    if NoneOf(k, IsUpper) {
      assert forall i :: 0 <= i < |k| ==> ToLower(k)[i] == k[i];
    } else {
      var i :| 0 <= i < |k| && IsUpper(k[i]);
      assert ToLower(k)[i] != k[i];
    }
  }

  lemma {:induction false} TrimClean(s: string)
    requires NoneOf(s, IsSpace)
    ensures TrimSpace(s) == s
  {
    TrimSpaceAround("", s, "");
    assert "" + s + "" == s;
  }

  // ----- one parameter

  lemma {:induction false} ParseWord(k: string, v: string)
    requires IsName(k) && NoneOf(v, IsSpace)
    ensures ParseParam(k + "=" + v) == Pair(k, v)
  {
    CutAt(k, '=', v);
    TrimClean(k);
    TrimClean(v);
    LowerName(k);
  }

  lemma {:induction false} WordIsClean(k: string, v: string)
    requires IsName(k) && IsClean(v)
    ensures IsClean(k + "=" + v) && k + "=" + v != "" && '=' in k + "=" + v
  {
    assert (k + "=" + v)[|k|] == '=';
  }

  predicate CleanParams(params: Params) {
    forall k :: k in params ==> IsName(k) && IsClean(params[k])
  }

  function PrintedParams(params: Params): Params {
    map k | k in params && params[k] != "" :: Printed(k, params[k])
  }

  lemma {:induction false} WordsAreClean(keys: seq<string>, params: Params)
    requires CleanParams(params) && forall k :: k in keys ==> k in params
    ensures AreWords(Words(keys, params), IsSpace)
    ensures forall i :: 0 <= i < |Words(keys, params)| ==> ';' !in Words(keys, params)[i]
  {
    if keys != [] {
      var k := keys[|keys| - 1];
      WordsAreClean(keys[..|keys| - 1], params);
      PrintedIsClean(k, params[k]);
      WordIsClean(k, Printed(k, params[k]));
    }
  }

  lemma {:induction false} ParseWords(keys: seq<string>, params: Params)
    requires CleanParams(params) && forall k :: k in keys ==> k in params
    ensures ParamsIn(Words(keys, params)) == PrintedAmong(keys, params)
  {
    if keys != [] {
      var k, before := keys[|keys| - 1], keys[..|keys| - 1];
      ParseWords(before, params);
      PrintedSnoc(keys, params);
      if params[k] != "" {
        PrintedIsClean(k, params[k]);
        ParseOneMore(Words(before, params), k, Printed(k, params[k]));
      } else {
        assert Words(before, params) + [] == Words(before, params);
      }
    }
  }

  function PrintedAmong(keys: seq<string>, params: Params): Params
    requires forall k :: k in keys ==> k in params
  {
    map k | k in keys && params[k] != "" :: Printed(k, params[k])
  }

  lemma {:induction false} PrintedSnoc(keys: seq<string>, params: Params)
    requires keys != [] && forall k :: k in keys ==> k in params
    ensures var k, before := keys[|keys| - 1], PrintedAmong(keys[..|keys| - 1], params);
            PrintedAmong(keys, params) == if params[k] == "" then before else before[k := Printed(k, params[k])]
  {
    assert keys == keys[..|keys| - 1] + [keys[|keys| - 1]];
  }

  lemma {:induction false} ParseOneMore(words: seq<string>, k: string, v: string)
    requires IsName(k) && IsClean(v)
    ensures ParamsIn(words + [k + "=" + v]) == ParamsIn(words)[k := v]
  {
    ParseWord(k, v);
    assert (words + [k + "=" + v])[..|words|] == words;
  }

  lemma {:induction false} ParseParamWords(params: Params)
    requires CleanParams(params)
    ensures ParamsIn(Words(KeyOrder(params), params)) == PrintedParams(params)
  {
    ParseWords(KeyOrder(params), params);
    assert forall k :: k in KeyOrder(params) && params[k] != "" <==> k in params && params[k] != "";
  }

  // ----- one result

  /** The texts of a result that parsing can give at all. */
  predicate Clean(r: Result) {
    && IsName(MethodOf(r)) && (r.Generic? ==> r.method' !in KNOWN)
    && IsClean(r.value) && NoneOf(r.value, IsUpper)
    && CleanParams(ParamsOf(r))
  }

  /** What comes back for a printed result. */
  function Echo(pick: set<string> -> string, r: Result): (back: Result)
  {
    match FromParams(pick, MethodOf(r), r.value, PrintedParams(ParamsOf(r)))
    case Got(back) => back
    case _ => r
  }

  lemma {:induction false} FieldsTrim(s: string)
    ensures Fields(TrimSpace(s), IsSpace) == Fields(s, IsSpace)
  {
    var a, e := TrimSpaceParts(s);
    var t := TrimSpace(s);
    FieldsAppend("", a, t + e, IsSpace);
    FieldsAppend(t, e, "", IsSpace);
    ConcatAssoc(a, t, e);
    assert "" + a + (t + e) == s && t + e + "" == t + e;
  }

  lemma {:induction false} FieldsSegment(head: string, words: seq<string>)
    requires head != "" && NoneOf(head, IsSpace) && AreWords(words, IsSpace)
    ensures Fields("\r\n  " + head + " " + Join(words, " "), IsSpace) == [head] + words
  {
    var rest := " " + Join(words, " ");
    FieldsAppend("", "\r\n  ", head + rest, IsSpace);
    FieldsWord(head, rest, IsSpace);
    FieldsAppend("", " ", Join(words, " "), IsSpace);
    FieldsJoin(words, ' ', IsSpace);
    SegmentText("\r\n  ", head, Join(words, " "));
  }

  lemma {:induction false} SegmentText(lead: string, head: string, tail: string)
    ensures lead + head + " " + tail == "" + lead + (head + (" " + tail)) && "" + " " + tail == " " + tail
  {
  }

  lemma {:induction false} SegmentIs(r: Result)
    ensures Segment(r) == "\r\n  " + (MethodOf(r) + "=" + r.value) + " " + ParamsText(ParamsOf(r))
  {
    var m, v, t := MethodOf(r), r.value, ParamsText(ParamsOf(r));
    ConcatAssoc("\r\n  ", m + "=", v);
    ConcatAssoc("\r\n  ", m, "=");
  }

  lemma {:induction false} SegmentFields(r: Result)
    requires Clean(r)
    ensures Fields(TrimSpace(Segment(r)), IsSpace)
         == [MethodOf(r) + "=" + r.value] + Words(KeyOrder(ParamsOf(r)), ParamsOf(r))
  {
    var words := Words(KeyOrder(ParamsOf(r)), ParamsOf(r));
    FieldsTrim(Segment(r));
    SegmentIs(r);
    WordsAreClean(KeyOrder(ParamsOf(r)), ParamsOf(r));
    WordIsClean(MethodOf(r), r.value);
    FieldsSegment(MethodOf(r) + "=" + r.value, words);
  }

  lemma {:induction false} SegmentHasNoSemicolon(r: Result)
    requires Clean(r)
    ensures ';' !in Segment(r)
  {
    var words := Words(KeyOrder(ParamsOf(r)), ParamsOf(r));
    WordsAreClean(KeyOrder(ParamsOf(r)), ParamsOf(r));
    JoinChars(words, " ", ';');
    SegmentIs(r);
    WordIsClean(MethodOf(r), r.value);
    NoSemicolon("\r\n  ", MethodOf(r) + "=" + r.value, Join(words, " "));
  }

  lemma {:induction false} NoSemicolon(lead: string, head: string, tail: string)
    requires ';' !in lead && ';' !in head && ';' !in tail
    ensures ';' !in lead + head + " " + tail
  {
  }

  lemma {:induction false} SegmentSays(pick: set<string> -> string, s: string, m: string, v: string, words: seq<string>)
    requires Fields(s, IsSpace) == [m + "=" + v] + words
    requires IsName(m) && IsClean(v) && NoneOf(v, IsUpper)
    ensures SegmentResult(pick, s) == FromParams(pick, m, v, ParamsIn(words))
  {
    WordIsClean(m, v);
    ParseWord(m, v);
    LowerName(v);
    assert ([m + "=" + v] + words)[1..] == words;
    assert '=' !in "none";
  }

  lemma {:induction false} EchoIs(pick: set<string> -> string, r: Result)
    requires Clean(r)
    ensures FromParams(pick, MethodOf(r), r.value, PrintedParams(ParamsOf(r))) == Got(Echo(pick, r))
  {
    assert MethodOf(r) != "arc";
  }

  /** A printed segment parses to the echo of its result. */
  lemma {:induction false} SegmentComesBack(pick: set<string> -> string, r: Result)
    requires Clean(r)
    ensures SegmentResult(pick, TrimSpace(Segment(r))) == Got(Echo(pick, r))
  {
    SegmentFields(r);
    SegmentSays(pick, TrimSpace(Segment(r)), MethodOf(r), r.value, Words(KeyOrder(ParamsOf(r)), ParamsOf(r)));
    ParseParamWords(ParamsOf(r));
    EchoIs(pick, r);
  }

  lemma {:induction false} SegmentsComeBack(pick: set<string> -> string, results: seq<Result>)
    requires forall r :: r in results ==> Clean(r)
    ensures SegmentResults(pick, Segments(results)) == Results(Mapped(r => Echo(pick, r), results), false)
  {
    if results != [] {
      var rest := results[1..];
      assert forall r :: r in rest ==> r in results;
      SegmentsComeBack(pick, rest);
      SegmentComesBack(pick, results[0]);
      MappedCons(Segment, results);
      MappedCons(r => Echo(pick, r), results);
    }
  }

  lemma {:induction false} MappedCons<T, U>(f: T -> U, xs: seq<T>)
    requires xs != []
    ensures Mapped(f, xs) == [f(xs[0])] + Mapped(f, xs[1..]) && Mapped(f, xs)[1..] == Mapped(f, xs[1..])
  {
  }

  // ----- the whole field

  lemma {:induction false} CleanIdentifier(id: string)
    requires IsClean(id)
    ensures Identifier(id) == Some(id)
  {
    TrimClean(id);
  }

  lemma {:induction false} FieldParts(pick: set<string> -> string, id: string, segments: seq<string>, results: Results)
    requires IsClean(id) && forall i :: 0 <= i < |segments| ==> ';' !in segments[i]
    requires SegmentResults(pick, segments) == results
    ensures ParsedField(pick, Join([id] + segments, ";")) == Parsed(id, results.list, results.failed)
  {
    var parts := [id] + segments;
    SplitJoin(parts, ';');
    CleanIdentifier(id);
    assert parts[0] == id && parts[1..] == segments;
  }

  lemma {:induction false} SegmentsHaveNoSemicolon(results: seq<Result>)
    requires forall r :: r in results ==> Clean(r)
    ensures forall i :: 0 <= i < |results| ==> ';' !in Segments(results)[i]
  {
    forall i | 0 <= i < |results| ensures ';' !in Segments(results)[i] {
      SegmentHasNoSemicolon(results[i]);
    }
  }

  const NONE: string := "\r\n  none"

  lemma {:induction false} NoneTrimmed()
    ensures TrimSpace(NONE) == "none" && ';' !in NONE
  {
    assert NONE == "\r\n  " + "none" + "";
    TrimSpaceAround("\r\n  ", "none", "");
  }

  lemma {:induction false} NoneIsNothing(pick: set<string> -> string)
    ensures SegmentResult(pick, "none") == Nothing
  {
    FieldsWord("none", "", IsSpace);
    assert "none" + "" == "none";
  }

  /** Every clean list comes back as its echo. */
  lemma {:induction false} FieldComesBack(pick: set<string> -> string, id: string, results: seq<Result>)
    requires IsClean(id) && forall r :: r in results ==> Clean(r)
    ensures ParsedField(pick, FieldText(id, results)) == Parsed(id, Mapped(r => Echo(pick, r), results), false)
  {
    if results == [] {
      NoneTrimmed();
      NoneIsNothing(pick);
      FieldParts(pick, id, [NONE], Results([], false));
    } else {
      SegmentsHaveNoSemicolon(results);
      SegmentsComeBack(pick, results);
      FieldParts(pick, id, Segments(results), Results(Mapped(r => Echo(pick, r), results), false));
    }
  }

  // ----- whatever is parsed is clean

  lemma {:induction false} LowerIsName(b: string)
    requires IsClean(b) && '=' !in b
    ensures IsName(ToLower(b))
  {
    LowerAt(b);
    var k := ToLower(b);
    forall i | 0 <= i < |k| ensures !IsSpace(k[i]) && k[i] != ';' && k[i] != '=' && !IsUpper(k[i]) {
      assert b[i] in b;
    }
  }

  lemma {:induction false} SliceIsClean(s: string, i: nat, j: nat)
    requires IsClean(s) && i <= j <= |s|
    ensures IsClean(s[i..j])
  {
  }

  lemma {:induction false} ParamIsClean(s: string)
    requires IsClean(s) && ParseParam(s).Pair?
    ensures IsName(ParseParam(s).key) && IsClean(ParseParam(s).value)
  {
    var i := IndexOf(s, '=');
    IndexOfFirst(s, '=');
    SliceIsClean(s, 0, i);
    SliceIsClean(s, i + 1, |s|);
    TrimClean(s[0..i]);
    TrimClean(s[i + 1..|s|]);
    LowerIsName(s[0..i]);
  }

  lemma {:induction false} ParamsAreClean(words: seq<string>)
    requires forall i :: 0 <= i < |words| ==> IsClean(words[i])
    ensures CleanParams(ParamsIn(words))
  {
    if words != [] {
      ParamsAreClean(words[..|words| - 1]);
      if ParseParam(words[|words| - 1]).Pair? {
        ParamIsClean(words[|words| - 1]);
      }
    }
  }

  lemma {:induction false} ReasonName()
    ensures IsName("reason") && IsName("")
  {
  }

  lemma {:induction false} DkimNames()
    ensures IsName("header.d") && IsName("header.i") && IsName("header.s") && IsName("header.b")
  {
  }

  lemma {:induction false} FromNames()
    ensures IsName("header.from") && IsName("header.sender")
  {
  }

  lemma {:induction false} SmtpNames()
    ensures IsName("smtp.mailfrom") && IsName("smtp.helo") && IsName("smtp.auth")
  {
  }

  lemma {:induction false} ArcNames()
    ensures IsName("smtp.remote-ip") && IsName("header.oldest-pass")
  {
  }

  lemma {:induction false} PolicyName()
    ensures IsName("policy.iprev")
  {
  }

  lemma {:induction false} ShortMethodNames()
    ensures IsName("auth") && IsName("dkim") && IsName("spf") && IsName("dmarc")
  {
  }

  lemma {:induction false} LongMethodNames()
    ensures IsName("domainkeys") && IsName("iprev") && IsName("sender-id")
  {
  }

  lemma {:induction false} LookupIsClean(params: Params, k: string)
    requires CleanParams(params)
    ensures IsClean(Lookup(params, k))
  {
  }

  lemma {:induction false} NumberIsClean(n: int)
    requires n > 0
    ensures IsClean(FormatInt(n))
  {
  }

  lemma {:induction false} SenderIDIsClean(pick: set<string> -> string, value: string, params: Params)
    requires Picks(pick) && CleanParams(params)
    ensures CleanParams(ParamsOf(ParseSenderID(pick, value, params)))
  {
    ReasonName();
    LookupIsClean(params, "reason");
    var key := pick(HeaderKeys(params));
    if HeaderKeys(params) != {} {
      assert key in params && HEADER <= key;
      var rest := key[|HEADER|..];
      LowerName(rest);
      assert key == HEADER + rest;
    } else {
      assert IsName(HEADER + "");
    }
  }

  lemma {:induction false} DkimIsClean(r: Result)
    requires r.Dkim? && IsClean(r.reason) && IsClean(r.domain) && IsClean(r.identifier)
    requires IsClean(r.selector) && IsClean(r.signature)
    ensures CleanParams(ParamsOf(r))
  {
    ReasonName();
    DkimNames();
  }

  lemma {:induction false} DomainKeysIsClean(r: Result)
    requires r.DomainKeys? && IsClean(r.reason) && IsClean(r.domain) && IsClean(r.from) && IsClean(r.sender)
    ensures CleanParams(ParamsOf(r))
  {
    ReasonName();
    DkimNames();
    FromNames();
  }

  lemma {:induction false} FromIsClean(r: Result)
    requires (r.Dmarc? && IsClean(r.from)) || (r.Spf? && IsClean(r.from) && IsClean(r.helo))
             || (r.IPRev? && IsClean(r.ip))
    requires IsClean(r.reason)
    ensures CleanParams(ParamsOf(r))
  {
    ReasonName();
    FromNames();
    SmtpNames();
    PolicyName();
  }

  lemma {:induction false} ArcIsClean(r: Result)
    requires r.Arc? && IsClean(r.remoteIP)
    ensures CleanParams(ParamsOf(r))
  {
    ArcNames();
    if r.oldestPass > 0 {
      NumberIsClean(r.oldestPass);
    }
  }

  lemma {:induction false} MethodNames(r: Result)
    requires !r.Generic?
    ensures IsName(MethodOf(r))
  {
    ShortMethodNames();
    LongMethodNames();
    ReasonName();
  }

  /** Four looked up values at once. */
  lemma {:induction false} LookupsAreClean(params: Params, a: string, b: string, c: string, d: string)
    requires CleanParams(params)
    ensures IsClean(Lookup(params, a)) && IsClean(Lookup(params, b)) && IsClean(Lookup(params, c))
            && IsClean(Lookup(params, d))
  {
    LookupIsClean(params, a);
    LookupIsClean(params, b);
    LookupIsClean(params, c);
    LookupIsClean(params, d);
  }

  lemma {:induction false} ParsedKeyResultIsClean(pick: set<string> -> string, m: string, v: string, params: Params)
    requires CleanParams(params) && m in {"dkim", "domainkeys"}
    ensures var p := FromParams(pick, m, v, params); p.Got? && CleanParams(ParamsOf(p.result))
  {
    LookupIsClean(params, "reason");
    if m == "dkim" {
      LookupsAreClean(params, "header.d", "header.i", "header.s", "header.b");
      DkimIsClean(FromParams(pick, m, v, params).result);
    } else {
      LookupsAreClean(params, "header.d", "header.from", "header.sender", "reason");
      DomainKeysIsClean(FromParams(pick, m, v, params).result);
    }
  }

  lemma {:induction false} ParsedFromResultIsClean(pick: set<string> -> string, m: string, v: string, params: Params)
    requires CleanParams(params) && m in {"iprev", "spf", "dmarc"}
    ensures var p := FromParams(pick, m, v, params); p.Got? && CleanParams(ParamsOf(p.result))
  {
    LookupIsClean(params, "reason");
    LookupsAreClean(params, "smtp.mailfrom", "smtp.helo", "header.from", "policy.iprev");
    FromIsClean(FromParams(pick, m, v, params).result);
  }

  lemma {:induction false} ParsedParamsAreClean(pick: set<string> -> string, m: string, v: string, params: Params)
    requires Picks(pick) && CleanParams(params)
    ensures var p := FromParams(pick, m, v, params); p.Got? ==> CleanParams(ParamsOf(p.result))
  {
    if m in {"dkim", "domainkeys"} {
      ParsedKeyResultIsClean(pick, m, v, params);
    } else if m in {"iprev", "spf", "dmarc"} {
      ParsedFromResultIsClean(pick, m, v, params);
    } else if m == "auth" {
      SmtpNames();
      LookupIsClean(params, "smtp.auth");
    } else if m == "sender-id" {
      SenderIDIsClean(pick, v, params);
    } else if m == "arc" && ParseArc(v, params).Got? {
      LookupIsClean(params, "smtp.remote-ip");
      ArcIsClean(ParseArc(v, params).result);
    }
  }

  lemma {:induction false} ParsedIsClean(pick: set<string> -> string, m: string, v: string, params: Params)
    requires Picks(pick) && IsName(m) && IsClean(v) && NoneOf(v, IsUpper) && CleanParams(params)
    ensures var p := FromParams(pick, m, v, params); p.Got? ==> Clean(p.result)
  {
    var p := FromParams(pick, m, v, params);
    if p.Got? {
      ParsedParamsAreClean(pick, m, v, params);
      if !p.result.Generic? {
        MethodNames(p.result);
      }
    }
  }

  lemma {:induction false} SegmentResultIsClean(pick: set<string> -> string, s: string)
    requires Picks(pick) && ';' !in s
    ensures SegmentResult(pick, s).Got? ==> Clean(SegmentResult(pick, s).result)
  {
    var parts := Fields(s, IsSpace);
    FieldsAreWords(s, IsSpace);
    FieldsChars(s, IsSpace, ';');
    if parts != [] && ParseParam(parts[0]).Pair? {
      var p := ParseParam(parts[0]);
      ParamIsClean(parts[0]);
      ParamsAreClean(parts[1..]);
      LowerIsClean(p.value);
      ParsedIsClean(pick, p.key, ToLower(p.value), ParamsIn(parts[1..]));
    }
  }

  lemma {:induction false} LowerIsClean(v: string)
    requires IsClean(v)
    ensures IsClean(ToLower(v)) && NoneOf(ToLower(v), IsUpper)
  {
    LowerAt(v);
    var k := ToLower(v);
    forall i | 0 <= i < |k| ensures !IsSpace(k[i]) && k[i] != ';' && !IsUpper(k[i]) {
      assert v[i] in v;
    }
  }

  lemma {:induction false} TrimHasNo(s: string, c: char)
    requires c !in s
    ensures c !in TrimSpace(s)
  {
    var a, e := TrimSpaceParts(s);
    assert forall x :: x in TrimSpace(s) ==> x in a + TrimSpace(s) + e;
  }

  lemma {:induction false} SegmentResultsAreClean(pick: set<string> -> string, segments: seq<string>)
    requires Picks(pick) && forall i :: 0 <= i < |segments| ==> ';' !in segments[i]
    ensures forall r :: r in SegmentResults(pick, segments).list ==> Clean(r)
  {
    if segments != [] {
      SegmentResultsAreClean(pick, segments[1..]);
      TrimHasNo(segments[0], ';');
      SegmentResultIsClean(pick, TrimSpace(segments[0]));
    }
  }

  lemma {:induction false} IdentifierIsClean(s: string)
    requires ';' !in s && Identifier(s).Some?
    ensures IsClean(Identifier(s).value)
  {
    TrimHasNo(s, ';');
    TrimSpaceIsTrimmed(s);
    var id := TrimSpace(s);
    var n := WordLength(id, IsSpace);
    assert n == 0 ==> id == "";
    assert forall x :: x in id[..n] ==> x in id;
  }

  /** Whatever the field says, what is parsed from it is clean. */
  lemma {:induction false} ParsedFieldIsClean(pick: set<string> -> string, v: string)
    requires Picks(pick)
    ensures var field := ParsedField(pick, v);
            IsClean(field.identifier) && forall r :: r in field.results ==> Clean(r)
  {
    var parts := Split(v, ';');
    SplitChars(v, ';');
    if Identifier(parts[0]).Some? {
      IdentifierIsClean(parts[0]);
      SegmentResultsAreClean(pick, parts[1..]);
    }
  }

  // ----- which clean results are their own echo

  lemma {:induction false} PrintedLookup(params: Params, k: string)
    requires k in params
    ensures Lookup(PrintedParams(params), k) == Printed(k, params[k])
  {
  }

  /** The results that lose nothing when printed: every value prints without quotes, and nothing is left out. */
  predicate Kept(r: Result) {
    match r
    case Auth(_, reason, auth) => reason == "" && Unquoted("smtp.auth", auth)
    case Dkim(_, reason, d, i, s, b) =>
      Unquoted("reason", reason) && Unquoted("header.d", d) && Unquoted("header.i", i)
      && Unquoted("header.s", s) && Unquoted("header.b", b)
    case DomainKeys(_, reason, d, from, sender) =>
      Unquoted("reason", reason) && Unquoted("header.d", d) && Unquoted("header.from", from)
      && Unquoted("header.sender", sender)
    case IPRev(_, reason, ip) => Unquoted("reason", reason) && Unquoted("policy.iprev", ip)
    case SenderID(_, reason, key, v) =>
      Unquoted("reason", reason) && Unquoted("header." + key, v) && NoneOf(key, IsUpper) && (v == "" ==> key == "")
    case Spf(_, reason, from, helo) =>
      Unquoted("reason", reason) && Unquoted("smtp.mailfrom", from) && Unquoted("smtp.helo", helo)
    case Dmarc(_, reason, from) => Unquoted("reason", reason) && Unquoted("header.from", from)
    case Arc(_, _, _) => false
    case Generic(_, _, params) => forall k :: k in params ==> params[k] != "" && Unquoted(k, params[k])
  }

  lemma {:induction false} PrintedValue(params: Params, k: string)
    requires k in params
    ensures Lookup(PrintedParams(params), k) == params[k] <==> Unquoted(k, params[k])
  {
    PrintedLookup(params, k);
    UnquotedIs(k, params[k]);
  }

  lemma {:induction false} DkimEchoIs(pick: set<string> -> string, r: Result)
    requires r.Dkim?
    ensures var p := PrintedParams(ParamsOf(r));
            Echo(pick, r) == Dkim(r.value, Lookup(p, "reason"), Lookup(p, "header.d"), Lookup(p, "header.i"),
                                  Lookup(p, "header.s"), Lookup(p, "header.b"))
  {
  }

  lemma {:induction false} DkimParams(r: Result)
    requires r.Dkim?
    ensures var p := ParamsOf(r);
            && p.Keys == {"reason", "header.d", "header.i", "header.s", "header.b"} && p["reason"] == r.reason
            && p["header.d"] == r.domain && p["header.i"] == r.identifier
            && p["header.s"] == r.selector && p["header.b"] == r.signature
  {
  }

  lemma {:induction false} DkimEcho(pick: set<string> -> string, r: Result)
    requires r.Dkim?
    ensures Echo(pick, r) == r <==> Kept(r)
  {
    var params := ParamsOf(r);
    DkimParams(r);
    DkimEchoIs(pick, r);
    PrintedValue(params, "reason");
    PrintedValue(params, "header.d");
    PrintedValue(params, "header.i");
    PrintedValue(params, "header.s");
    PrintedValue(params, "header.b");
  }

  lemma {:induction false} DomainKeysEchoIs(pick: set<string> -> string, r: Result)
    requires r.DomainKeys?
    ensures var p := PrintedParams(ParamsOf(r));
            Echo(pick, r) == DomainKeys(r.value, Lookup(p, "reason"), Lookup(p, "header.d"), Lookup(p, "header.from"),
                                        Lookup(p, "header.sender"))
  {
  }

  lemma {:induction false} DomainKeysParams(r: Result)
    requires r.DomainKeys?
    ensures var p := ParamsOf(r);
            && p.Keys == {"reason", "header.d", "header.from", "header.sender"} && p["reason"] == r.reason
            && p["header.d"] == r.domain && p["header.from"] == r.from && p["header.sender"] == r.sender
  {
  }

  lemma {:induction false} DomainKeysEcho(pick: set<string> -> string, r: Result)
    requires r.DomainKeys?
    ensures Echo(pick, r) == r <==> Kept(r)
  {
    var params := ParamsOf(r);
    DomainKeysParams(r);
    DomainKeysEchoIs(pick, r);
    PrintedValue(params, "reason");
    PrintedValue(params, "header.d");
    PrintedValue(params, "header.from");
    PrintedValue(params, "header.sender");
  }

  lemma {:induction false} IPRevEcho(pick: set<string> -> string, r: Result)
    requires r.IPRev?
    ensures Echo(pick, r) == r <==> Kept(r)
  {
    PrintedValue(ParamsOf(r), "reason");
    PrintedValue(ParamsOf(r), "policy.iprev");
  }

  lemma {:induction false} DmarcEcho(pick: set<string> -> string, r: Result)
    requires r.Dmarc?
    ensures Echo(pick, r) == r <==> Kept(r)
  {
    PrintedValue(ParamsOf(r), "reason");
    PrintedValue(ParamsOf(r), "header.from");
  }

  lemma {:induction false} SpfEcho(pick: set<string> -> string, r: Result)
    requires r.Spf?
    ensures Echo(pick, r) == r <==> Kept(r)
  {
    var params := ParamsOf(r);
    PrintedValue(params, "reason");
    PrintedValue(params, "smtp.mailfrom");
    PrintedValue(params, "smtp.helo");
  }

  lemma {:induction false} AuthEcho(pick: set<string> -> string, r: Result)
    requires r.Auth?
    ensures Echo(pick, r) == r <==> Kept(r)
  {
    PrintedValue(ParamsOf(r), "smtp.auth");
    assert "reason" !in PrintedParams(ParamsOf(r));
  }

  lemma {:induction false} GenericEcho(pick: set<string> -> string, r: Result)
    requires r.Generic? && r.method' !in KNOWN
    ensures Echo(pick, r) == r <==> Kept(r)
  {
    var params := r.params;
    GenericEchoIs(pick, r);
    if PrintedParams(params) == params {
      forall k | k in params ensures params[k] != "" && Unquoted(k, params[k]) {
        assert k in PrintedParams(params);
        UnquotedIs(k, params[k]);
      }
    } else if Kept(r) {
      AllKept(params);
    }
  }

  lemma {:induction false} AllKept(params: Params)
    requires forall k :: k in params ==> params[k] != "" && Unquoted(k, params[k])
    ensures PrintedParams(params) == params
  {
    forall k | k in params ensures Printed(k, params[k]) == params[k] {
      UnquotedIs(k, params[k]);
    }
  }

  lemma {:induction false} GenericEchoIs(pick: set<string> -> string, r: Result)
    requires r.Generic? && r.method' !in KNOWN
    ensures Echo(pick, r) == Generic(r.method', r.value, PrintedParams(r.params))
  {
  }

  lemma {:induction false} PrintedHeaderKeys(reason: string, key: string, v: string)
    ensures HeaderKeys(PrintedParams(map["reason" := reason, HEADER + key := v]))
         == if v == "" then {} else {HEADER + key}
  {
    assert (HEADER + key)[0] != "reason"[0] && !IsHeaderKey("reason");
    var printed := PrintedParams(map["reason" := reason, HEADER + key := v]);
    if v == "" {
      assert HeaderKeys(printed) == {};
    } else {
      assert HEADER + key in HeaderKeys(printed);
    }
  }

  lemma {:induction false} OneHeaderKey(pick: set<string> -> string, value: string, params: Params, key: string)
    requires Picks(pick) && HeaderKeys(params) == {HEADER + key}
    ensures ParseSenderID(pick, value, params)
         == SenderID(value, Lookup(params, "reason"), key, Lookup(params, HEADER + key))
  {
    assert pick({HEADER + key}) in {HEADER + key};
    assert (HEADER + key)[|HEADER|..] == key;
  }

  lemma {:induction false} SenderIDEcho(pick: set<string> -> string, r: Result)
    requires r.SenderID? && Picks(pick)
    ensures Echo(pick, r) == r <==> Kept(r)
  {
    var params, key := ParamsOf(r), ToLower(r.headerKey);
    LowerName(r.headerKey);
    PrintedValue(params, "reason");
    PrintedValue(params, HEADER + key);
    PrintedHeaderKeys(r.reason, key, r.headerValue);
    assert params == map["reason" := r.reason, HEADER + key := r.headerValue];
    if r.headerValue != "" {
      OneHeaderKey(pick, r.value, PrintedParams(params), key);
    }
    SenderIDEchoIs(pick, r);
  }

  lemma {:induction false} SenderIDEchoIs(pick: set<string> -> string, r: Result)
    requires r.SenderID?
    ensures Echo(pick, r) == ParseSenderID(pick, r.value, PrintedParams(ParamsOf(r)))
  {
  }

  lemma {:induction false} EchoIsKept(pick: set<string> -> string, r: Result)
    requires Picks(pick) && Clean(r)
    ensures Echo(pick, r) == r <==> Kept(r)
  {
    match r
    case Auth(_, _, _) => AuthEcho(pick, r);
    case Dkim(_, _, _, _, _, _) => DkimEcho(pick, r);
    case DomainKeys(_, _, _, _, _) => DomainKeysEcho(pick, r);
    case SenderID(_, _, _, _) => SenderIDEcho(pick, r);
    case Spf(_, _, _, _) => SpfEcho(pick, r);
    case Arc(_, _, _) =>
    case Generic(_, _, _) => GenericEcho(pick, r);
    case IPRev(_, _, _) => IPRevEcho(pick, r);
    case Dmarc(_, _, _) => DmarcEcho(pick, r);
  }

  /**
   `Parse(Format(id, results))` gives back the identifier and the results
   exactly when all texts are clean and every result loses nothing when printed.
   */
  lemma {:induction false} RoundTripExactly(pick: set<string> -> string, id: string, results: seq<Result>)
    requires Picks(pick)
    ensures ParsedField(pick, FieldText(id, results)) == Parsed(id, results, false)
        <==> IsClean(id) && forall r :: r in results ==> Clean(r) && Kept(r)
  {
    if ParsedField(pick, FieldText(id, results)) == Parsed(id, results, false) {
      ParsedFieldIsClean(pick, FieldText(id, results));
    }
    if IsClean(id) && forall r :: r in results ==> Clean(r) {
      FieldComesBack(pick, id, results);
      EchoesAreKept(pick, results);
    }
  }

  lemma {:induction false} EchoesAreKept(pick: set<string> -> string, results: seq<Result>)
    requires Picks(pick) && forall r :: r in results ==> Clean(r)
    ensures Mapped(r => Echo(pick, r), results) == results <==> forall r :: r in results ==> Kept(r)
  {
    forall r | r in results ensures Echo(pick, r) == r <==> Kept(r) {
      EchoIsKept(pick, r);
    }
    var back := Mapped(r => Echo(pick, r), results);
    assert forall i :: 0 <= i < |results| ==> back[i] == Echo(pick, results[i]);
    if back == results {
      forall r | r in results ensures Kept(r) {
        var i :| 0 <= i < |results| && results[i] == r;
        assert back[i] == r;
      }
    }
  }

  const IPV6: Result := IPRev("pass", "", "::1")

  lemma {:induction false} QuotedIPv6()
    ensures Printed("policy.iprev", "::1") == "\"::1\""
  {
    assert "::1"[1..] == ":1" && ":1"[1..] == "1" && "1"[1..] == "";
    assert IsSpecial("::1"[0]) && !IsAddressChar("::1"[0]);
  }

  lemma {:induction false} IPv6IsClean()
    ensures Clean(IPV6)
  {
    MethodNames(IPV6);
    assert IsClean("pass") && NoneOf("pass", IsUpper) && IsClean("::1") && IsClean("");
    FromIsClean(IPV6);
  }

  lemma {:induction false} IPv6Echo(pick: set<string> -> string)
    ensures Echo(pick, IPV6) == IPRev("pass", "", "\"::1\"")
  {
    var params := ParamsOf(IPV6);
    QuotedIPv6();
    PrintedLookup(params, "reason");
    PrintedLookup(params, "policy.iprev");
  }

  /** An IPv6 address prints quoted, and comes back with its quotes. */
  lemma {:induction false} IPv6ComesBackQuoted(pick: set<string> -> string)
    requires Picks(pick)
    ensures ParsedField(pick, FieldText("a", [IPV6])) == Parsed("a", [IPRev("pass", "", "\"::1\"")], false)
  {
    IPv6IsClean();
    FieldComesBack(pick, "a", [IPV6]);
    IPv6Echo(pick);
    assert Mapped(r => Echo(pick, r), [IPV6]) == [Echo(pick, IPV6)];
  }

  /** No list with an ARC result, or with an authentication result that has a reason, comes back. */
  lemma {:induction false} NeverComesBack(pick: set<string> -> string, id: string, results: seq<Result>, r: Result)
    requires Picks(pick) && r in results && (r.Arc? || (r.Auth? && r.reason != ""))
    ensures ParsedField(pick, FieldText(id, results)) != Parsed(id, results, false)
  {
    RoundTripExactly(pick, id, results);
    assert !Kept(r);
  }
}
