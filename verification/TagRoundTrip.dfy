/** Printing a tag list and parsing it undo each other. */
module TagRoundTrip {
  import opened Text
  import opened Strings
  import opened Sorting
  import opened Header
  import opened Tags

  /** A tag name that survives printing and parsing. */
  predicate CleanKey(k: string) {
    k != "" && Trimmed(k) && '=' !in k && ';' !in k && NoneOf(k, IsLineEnd)
  }

  /** A tag value that survives printing and parsing. */
  predicate CleanValue(v: string) {
    Trimmed(v) && ';' !in v && NoneOf(v, IsLineEnd)
  }

  /** All tags are clean, except that the value of `b` may have white space around it. */
  predicate CleanParams(params: TagMap) {
    forall k :: k in params && k != "b" ==> CleanKey(k) && CleanValue(params[k])
  }

  predicate CleanB(params: TagMap) {
    "b" in params ==> ';' !in params["b"] && NoneOf(params["b"], IsLineEnd)
  }

  // ----- one piece

  lemma {:induction false} TrimSkips(c: char, s: string)
    requires IsSpace(c)
    ensures TrimSpace([c] + s) == TrimSpace(s) && TrimSpace(s + [c]) == TrimSpace(s)
  {
    assert [c] + s + "" == [c] + s && "" + s + [c] == s + [c];
    TrimSpaceSkips([c], s, "");
    TrimSpaceSkips("", s, [c]);
  }

  /** White space in front of a piece does not matter. */
  lemma {:induction false} PieceSkipsLeft(c: char, p: string)
    requires IsSpace(c)
    ensures ParsePiece([c] + p) == ParsePiece(p)
  {
    var i := IndexOf(p, '=');
    IndexOfFirst(p, '=');
    if i < |p| {
      var a, b := p[..i], p[i + 1..];
      assert [c] + p == ([c] + a) + ['='] + b;
      CutAt([c] + a, '=', b);
      TrimSkips(c, a);
    } else {
      TrimSkips(c, p);
      IndexOfAbsent([c] + p, '=');
    }
  }

  lemma {:induction false} PieceSkipsRight(p: string, c: char)
    requires IsSpace(c)
    ensures ParsePiece(p + [c]) == ParsePiece(p)
  {
    var i := IndexOf(p, '=');
    IndexOfFirst(p, '=');
    if i < |p| {
      var a, b := p[..i], p[i + 1..];
      assert p + [c] == a + ['='] + (b + [c]);
      CutAt(a, '=', b + [c]);
      TrimSkips(c, b);
    } else {
      TrimSkips(c, p);
      IndexOfAbsent(p + [c], '=');
    }
  }

  /** What becomes of a piece that a semicolon and `rest` follow. */
  function Then(p: Piece, rest: string, m: TagMap): ParseResult {
    match p
    case Blank => ParseFrom(rest, m)
    case Malformed => MalformedParams
    case Pair(k, v) => if k in m then DuplicateTag else ParseFrom(rest, m[k := v])
  }

  lemma {:induction false} ParseFirst(piece: string, rest: string, m: TagMap)
    requires ';' !in piece
    ensures ParseFrom(piece + [';'] + rest, m) == Then(ParsePiece(piece), rest, m)
  {
    SplitAt(piece, ';', rest);
    assert ([piece] + Split(rest, ';'))[1..] == Split(rest, ';');
  }

  function Finally(p: Piece, m: TagMap): ParseResult {
    match p
    case Blank => Params(m)
    case Malformed => MalformedParams
    case Pair(k, v) => if k in m then DuplicateTag else Params(m[k := v])
  }

  lemma {:induction false} ParsePiecesOne(pieces: seq<string>, m: TagMap)
    requires |pieces| == 1
    ensures ParsePieces(pieces, m) == Finally(ParsePiece(pieces[0]), m)
  {
    assert pieces[1..] == [];
  }

  lemma {:induction false} ParseOnly(piece: string, m: TagMap)
    requires ';' !in piece
    ensures ParseFrom(piece, m) == Finally(ParsePiece(piece), m)
  {
    SplitOnly(piece, ';');
    ParsePiecesOne([piece], m);
  }

  lemma {:induction false} FirstPieceSkipsLeft(c: char, p: string, b: string, m: TagMap)
    requires IsSpace(c) && ';' !in p
    ensures ParseFrom([c] + (p + [';'] + b), m) == ParseFrom(p + [';'] + b, m)
    ensures ParseFrom([c] + p, m) == ParseFrom(p, m)
  {
    PieceSkipsLeft(c, p);
    ParseFirst(p, b, m);
    ParseFirst([c] + p, b, m);
    ParseOnly(p, m);
    ParseOnly([c] + p, m);
    Shift(c, p, b, ';');
  }

  lemma {:induction false} ParseSkipsOneLeft(c: char, s: string, m: TagMap)
    requires IsSpace(c)
    ensures ParseFrom([c] + s, m) == ParseFrom(s, m)
  {
    var i := IndexOf(s, ';');
    IndexOfFirst(s, ';');
    if i < |s| {
      FirstPieceSkipsLeft(c, s[..i], s[i + 1..], m);
      Around(s, i);
    } else {
      FirstPieceSkipsLeft(c, s, "", m);
    }
  }

  lemma {:induction false} ParseSkipsOneRight(s: string, c: char, m: TagMap)
    requires IsSpace(c)
    ensures ParseFrom(s + [c], m) == ParseFrom(s, m)
    decreases |s|
  {
    var i := IndexOf(s, ';');
    var p := s[..i];
    IndexOfFirst(s, ';');
    if i < |s| {
      var b := s[i + 1..];
      Around(s, i);
      Shift(c, b, p, ';');
      ParseFirst(p, b, m);
      ParseFirst(p, b + [c], m);
      match ParsePiece(p)
      case Pair(k, v) => ParseSkipsOneRight(b, c, m[k := v]);
      case _ => ParseSkipsOneRight(b, c, m);
    } else {
      PieceSkipsRight(p, c);
      ParseOnly(p, m);
      ParseOnly(p + [c], m);
      assert s == p;
    }
  }

  lemma {:induction false} ParseSkipsLeft(a: string, s: string, m: TagMap)
    requires AllOf(a, IsSpace)
    ensures ParseFrom(a + s, m) == ParseFrom(s, m)
  {
    if a == "" {
      assert a + s == s;
    } else {
      assert a + s == [a[0]] + (a[1..] + s);
      ParseSkipsOneLeft(a[0], a[1..] + s, m);
      ParseSkipsLeft(a[1..], s, m);
    }
  }

  lemma {:induction false} ParseSkipsRight(s: string, e: string, m: TagMap)
    requires AllOf(e, IsSpace)
    ensures ParseFrom(s + e, m) == ParseFrom(s, m)
    decreases |e|
  {
    if e == "" {
      assert s + e == s;
    } else {
      assert s + e == (s + [e[0]]) + e[1..];
      ParseSkipsRight(s + [e[0]], e[1..], m);
      ParseSkipsOneRight(s, e[0], m);
    }
  }

  lemma {:induction false} ParseTrimmed(s: string, m: TagMap)
    ensures ParseFrom(TrimSpace(s), m) == ParseFrom(s, m)
  {
    var a, e := TrimSpaceParts(s);
    ParseSkipsRight(a + TrimSpace(s), e, m);
    ParseSkipsLeft(a, TrimSpace(s), m);
  }

  // ----- a list of tags

  lemma {:induction false} PieceOfTag(k: string, v: string)
    requires Trimmed(k) && '=' !in k
    ensures ParsePiece(k + "=" + v) == Pair(k, TrimSpace(v))
  {
    assert "" + k + "" == k;
    TrimSpaceAround("", k, "");
    CutAt(k, '=', v);
  }

  lemma {:induction false} ParseTag(lead: string, k: string, v: string, rest: string, m: TagMap)
    requires AllOf(lead, IsSpace) && CleanKey(k) && CleanValue(v) && k !in m
    ensures ParseFrom(lead + Tag(k, v) + rest, m) == ParseFrom(rest, m[k := v])
  {
    var piece := k + "=" + v;
    calc {
      ParseFrom(lead + Tag(k, v) + rest, m);
      { TagText(lead, k, v, rest); }
      ParseFrom((lead + " ") + (piece + [';'] + rest), m);
      { AllOfAppend(lead, " ", IsSpace); ParseSkipsLeft(lead + " ", piece + [';'] + rest, m); }
      ParseFrom(piece + [';'] + rest, m);
      { ParseFirst(piece, rest, m); }
      Then(ParsePiece(piece), rest, m);
      { PieceOfTag(k, v); TrimSpaceNothing(v); }
      ParseFrom(rest, m[k := v]);
    }
  }

  lemma {:induction false} TrimSpaceNothing(v: string)
    requires Trimmed(v)
    ensures TrimSpace(v) == v
  {
    assert "" + v + "" == v;
    TrimSpaceAround("", v, "");
  }

  lemma {:induction false} TagText(lead: string, k: string, v: string, rest: string)
    ensures lead + Tag(k, v) + rest == (lead + " ") + ((k + "=" + v) + [';'] + rest)
  {
  }

  function Restrict(params: TagMap, keys: seq<string>): TagMap {
    map k | k in keys && k in params :: params[k]
  }

  lemma {:induction false} ParseTags(keys: seq<string>, params: TagMap, col: nat, rest: string, m: TagMap)
    requires forall k :: k in keys ==> k in params && CleanKey(k) && CleanValue(params[k]) && k !in m
    requires StrictlySorted(keys)
    ensures ParseFrom(FormatTags(keys, params, col) + rest, m) == ParseFrom(rest, m + Restrict(params, keys))
  {
    if keys == [] {
      assert "" + rest == rest && m + Restrict(params, keys) == m;
    } else {
      var k, tail := keys[0], keys[1..];
      var v := params[k];
      var m' := m[k := v];
      assert k in keys && forall x :: x in tail ==> x in keys;
      var lead := if col + |Tag(k, v)| > 75 then CRLF else "";
      var u := FormatTags(tail, params, Column(col, |Tag(k, v)|));
      forall x | x in tail ensures x !in m' {
        SortedTail(keys, x);
      }
      calc {
        ParseFrom(FormatTags(keys, params, col) + rest, m);
        { ConcatAssoc(lead + Tag(k, v), u, rest); }
        ParseFrom(lead + Tag(k, v) + (u + rest), m);
        { ParseTag(lead, k, v, u + rest, m); }
        ParseFrom(u + rest, m');
        { ParseTags(tail, params, Column(col, |Tag(k, v)|), rest, m'); }
        ParseFrom(rest, m' + Restrict(params, tail));
        { RestrictStep(params, keys, m); }
        ParseFrom(rest, m + Restrict(params, keys));
      }
    }
  }

  lemma {:induction false} RestrictStep(params: TagMap, keys: seq<string>, m: TagMap)
    requires keys != [] && forall k :: k in keys ==> k in params
    ensures keys[0] in keys && m[keys[0] := params[keys[0]]] + Restrict(params, keys[1..]) == m + Restrict(params, keys)
  {
    assert forall x :: x in keys <==> x == keys[0] || x in keys[1..];
  }

  /** The value of `b` as it stands in the printed field: folded. */
  function PrintedB(params: TagMap): string
    requires "b" in params
  {
    TrimSpace(Fold(" b=" + params["b"])[3..])
  }

  lemma {:induction false} FoldStart(bv: string)
    ensures var kv := " b=" + bv;
            Fold(kv) == " b=" + Fold(kv)[3..] && StripWhitespace(Fold(kv)[3..]) == StripWhitespace(bv)
  {
    var kv := " b=" + bv;
    var f := Fold(kv);
    assert FoldBody(kv)[..3] == " b=";
    assert f == " b=" + f[3..];
    FoldStrip(kv);
    StripAppend(FoldBody(kv), CRLF);
    StripBlank(CRLF);
    StripAppend(" b=", f[3..]);
    StripAppend(" b=", bv);
    Cancel(StripWhitespace(f[3..]), StripWhitespace(bv), StripWhitespace(" b="));
  }

  lemma {:induction false} FoldHasNo(kv: string, c: char)
    requires c !in kv && c != ' ' && !IsLineEnd(c)
    ensures c !in Fold(kv)
    decreases |kv|
  {
    if |kv| > 75 {
      FoldHasNo(kv[75..], c);
      assert Fold(kv) == kv[..75] + (CRLF + " ") + Fold(kv[75..]);
    }
  }

  /** The tag list that `FormatParams` prints after the name. */
  function TagListText(params: TagMap): string {
    FormatTags(OtherKeys(params), params, 0) + if "b" in params then CRLF + Fold(" b=" + params["b"]) else ""
  }

  lemma {:induction false} ParseB(bv: string, m: TagMap)
    requires ';' !in bv && "b" !in m
    ensures ParseFrom(CRLF + Fold(" b=" + bv), m) == Params(m["b" := TrimSpace(Fold(" b=" + bv)[3..])])
  {
    var v := Fold(" b=" + bv)[3..];
    FoldStart(bv);
    FoldHasNo(" b=" + bv, ';');
    PieceText(v);
    ParseSkipsLeft(CRLF + " ", "b" + "=" + v, m);
    ParseOnly("b" + "=" + v, m);
    PieceOfTag("b", v);
  }

  lemma {:induction false} PieceText(v: string)
    ensures CRLF + (" b=" + v) == (CRLF + " ") + ("b" + "=" + v)
    ensures ';' !in " b=" + v ==> ';' !in "b" + "=" + v
  {
    assert " b=" + v == " " + ("b" + "=" + v);
  }

  /** The tag list of a printed field parses back to the printed map; `b` comes back folded. */
  lemma {:induction false} ParseFormatted(params: TagMap)
    requires CleanParams(params)
    requires "b" in params ==> ';' !in params["b"]
    ensures ParseParams(TagListText(params))
            == Params(if "b" in params then params["b" := PrintedB(params)] else params)
  {
    var rest := if "b" in params then CRLF + Fold(" b=" + params["b"]) else "";
    ParseTags(OtherKeys(params), params, 0, rest, map[]);
    RestrictAll(params);
    if "b" in params {
      ParseB(params["b"], params - {"b"});
      RestoreB(params);
    } else {
      ParseNothing(params);
      assert params - {"b"} == params;
    }
  }

  lemma {:induction false} ParseNothing(m: TagMap)
    ensures ParseFrom("", m) == Params(m)
  {
    ParseOnly("", m);
    assert ParsePiece("") == Blank;
  }

  lemma {:induction false} RestoreB(params: TagMap)
    requires "b" in params
    ensures (params - {"b"})["b" := PrintedB(params)] == params["b" := PrintedB(params)]
  {
  }

  lemma {:induction false} RestrictAll(params: TagMap)
    ensures map[] + Restrict(params, OtherKeys(params)) == params - {"b"}
  {
  }

  lemma {:induction false} PrintedBStrips(params: TagMap)
    requires "b" in params
    ensures StripWhitespace(PrintedB(params)) == StripWhitespace(params["b"])
  {
    FoldStart(params["b"]);
    StripTrim(Fold(" b=" + params["b"])[3..]);
  }

  // ----- the printed field as part of a header

  lemma {:induction false} TagsAreOpen(x: string, keys: seq<string>, params: TagMap, col: nat)
    requires Open(x)
    requires forall k :: k in keys ==> k in params && CleanKey(k) && CleanValue(params[k])
    ensures Open(x + FormatTags(keys, params, col))
    decreases |keys|
  {
    if keys == [] {
      assert x + "" == x;
    } else {
      var t, tail := Tag(keys[0], params[keys[0]]), keys[1..];
      assert keys[0] in keys && forall k :: k in tail ==> k in keys;
      var lead := if col + |t| > 75 then CRLF else "";
      TagIsOpen(x, keys[0], params[keys[0]], lead);
      TagsAreOpen(x + lead + t, tail, params, Column(col, |t|));
      Tags.Regroup(x, lead, t, FormatTags(tail, params, Column(col, |t|)));
    }
  }

  lemma {:induction false} TagIsOpen(x: string, k: string, v: string, lead: string)
    requires Open(x) && CleanKey(k) && CleanValue(v) && (lead == "" || lead == CRLF)
    ensures Open(x + lead + Tag(k, v))
  {
    assert NoneOf(Tag(k, v), IsLineEnd);
    if lead == CRLF {
      OpenFold(x, Tag(k, v));
    } else {
      OpenAppend(x, Tag(k, v));
      assert x + "" + Tag(k, v) == x + Tag(k, v);
    }
  }

  /** A printed field with a `b` tag is one complete header field. */
  lemma {:induction false} FormattedIsClosed(name: string, params: TagMap)
    requires name != "" && NoneOf(name, IsLineEnd) && CleanParams(params) && CleanB(params)
    ensures var f := FormatParams(name, params); if "b" in params then Closed(f) else Closed(f + CRLF)
  {
    var x := name + ":" + FormatTags(OtherKeys(params), params, 0);
    OpenText(name + ":");
    TagsAreOpen(name + ":", OtherKeys(params), params, 0);
    if "b" in params {
      var kv := " b=" + params["b"];
      OpenFold(x, " ");
      var rest := if |kv| <= 75 then kv[1..] else kv[1..75] + CRLF + " " + FoldBody(kv[75..]);
      FoldedIsOpen(x, kv);
      OpenClose(x + CRLF + FoldBody(kv));
      assert x + CRLF + FoldBody(kv) + CRLF == x + (CRLF + Fold(kv));
    } else {
      OpenClose(x);
      assert x + "" == x;
    }
  }

  lemma {:induction false} FoldedIsOpen(x: string, kv: string)
    requires Open(x) && kv != "" && IsWsp(kv[0]) && NoneOf(kv, IsLineEnd)
    ensures Open(x + CRLF + FoldBody(kv))
  {
    if |kv| <= 75 {
      OpenFold(x, kv);
    } else {
      var a, b := kv[..75], kv[75..];
      OpenFold(x, a);
      OpenFold(x + CRLF + a, " ");
      FoldShape(x + CRLF + a + CRLF + " ", b);
      Glue(x + CRLF, a, FoldBody(b));
    }
  }

  /** The field as it is written into a header: without a `b` tag the line is not yet ended. */
  function FieldText(name: string, params: TagMap): string {
    FormatParams(name, params) + if "b" in params then "" else CRLF
  }

  /** A successful parse with the tags of `params`, whose `b` may differ in white space. */
  predicate SameUpToB(result: ParseResult, params: TagMap) {
    && result.Params? && result.params.Keys == params.Keys
    && (forall k :: k in params && k != "b" ==> result.params[k] == params[k])
    && ("b" in params ==> StripWhitespace(result.params["b"]) == StripWhitespace(params["b"]))
  }

  /**
   Printing, reading the header back, cutting the field and parsing its value
   gives the same map again, `b` up to the white space that folding adds.
   */
  lemma {:induction false} TagListRoundTrip(name: string, params: TagMap, message: string)
    requires name != "" && Trimmed(name) && ':' !in name && NoneOf(name, IsLineEnd)
    requires CleanParams(params) && CleanB(params)
    requires StartsField(message) && ReadHeader(message).Header?
    ensures var field := FieldText(name, params);
            && ReadHeader(field + message) == Header([field] + ReadHeader(message).h, ReadHeader(message).rest)
            && Name(field) == name
            && SameUpToB(ParseParams(ParseField(field).1), params)
  {
    var f := FieldText(name, params);
    FieldTextIsClosed(name, params);
    ReadPrepended(f, message);
    FieldTextParses(name, params);
    PrintedIsSame(params);
  }

  lemma {:induction false} PrintedIsSame(params: TagMap)
    ensures SameUpToB(Params(if "b" in params then params["b" := PrintedB(params)] else params), params)
  {
    if "b" in params {
      PrintedBStrips(params);
    }
  }

  lemma {:induction false} FieldTextIsClosed(name: string, params: TagMap)
    requires name != "" && NoneOf(name, IsLineEnd) && CleanParams(params) && CleanB(params)
    ensures Closed(FieldText(name, params))
  {
    FormattedIsClosed(name, params);
    assert FormatParams(name, params) + "" == FormatParams(name, params);
  }

  lemma {:induction false} FieldTextParses(name: string, params: TagMap)
    requires name != "" && Trimmed(name) && ':' !in name
    requires CleanParams(params) && CleanB(params)
    ensures ParseField(FieldText(name, params)).0 == name
    ensures ParseParams(ParseField(FieldText(name, params)).1)
         == Params(if "b" in params then params["b" := PrintedB(params)] else params)
  {
    var text := TagListText(params);
    var e := if "b" in params then "" else CRLF;
    FieldTextIs(name, params);
    CutAt(name, ':', text + e);
    TrimSpaceNothing(name);
    ParseTrimmed(text + e, map[]);
    ParseSkipsRight(text, e, map[]);
    ParseFormatted(params);
  }

  lemma {:induction false} FieldTextIs(name: string, params: TagMap)
    ensures FieldText(name, params) == name + [':'] + (TagListText(params) + if "b" in params then "" else CRLF)
  {
  }
}
