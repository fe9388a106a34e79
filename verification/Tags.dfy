/**
 The tag list of a DKIM-Signature field: printing with folding, parsing, and
 cutting the `b=` value out again (middleware/authres/dkim/header.go,
 middleware/authres/dkim/verify.go).
 */
module Tags {
  import opened Text
  import opened Strings
  import opened Sorting
  import opened Header

  type TagMap = map<string, string>

  // ----- printing

  function Tag(k: string, v: string): string {
    " " + k + "=" + v + ";"
  }

  /** The tags `keys` in order, when `col` columns of the current line are taken. */
  function FormatTags(keys: seq<string>, params: TagMap, col: nat): string
    requires forall k :: k in keys ==> k in params
  {
    if keys == [] then ""
    else
      var t := Tag(keys[0], params[keys[0]]);
      (if col + |t| > 75 then CRLF else "") + t + FormatTags(keys[1..], params, Column(col, |t|))
  }

  /** The column after a tag of length `n`. */
  function Column(col: nat, n: nat): nat {
    if col + n > 75 then n else col + n
  }

  lemma {:induction false} FormatTagsAt(keys: seq<string>, params: TagMap, i: nat, col: nat)
    requires i < |keys| && forall k :: k in keys ==> k in params
    ensures var t := Tag(keys[i], params[keys[i]]);
            FormatTags(keys[i..], params, col)
            == (if col + |t| > 75 then CRLF else "") + t + FormatTags(keys[i + 1..], params, Column(col, |t|))
  {
    assert keys[i..][1..] == keys[i + 1..];
  }

  lemma {:induction false} Regroup(a: string, b: string, c: string, d: string)
    ensures a + (b + c + d) == a + b + (c + d) == a + (b + c) + d == a + b + c + d
  {
  }

  function OtherKeys(params: TagMap): seq<string> {
    SortedKeys(params.Keys - {"b"})
  }

  /** `formatHeaderParams`. */
  function FormatParams(name: string, params: TagMap): string {
    name + ":" + FormatTags(OtherKeys(params), params, 0)
    + if "b" in params then CRLF + Fold(" b=" + params["b"]) else ""
  }

  method SortParams(params: TagMap) returns (keys: seq<string>, bvalue: string, bfound: bool)
    ensures keys == OtherKeys(params)
    ensures bfound == ("b" in params) && bvalue == (if "b" in params then params["b"] else "")
  {
    var names: set<string> := {};
    bfound, bvalue := false, "";
    var left := params.Keys;
    while left != {}
      invariant left <= params.Keys && names == params.Keys - left - {"b"}
      invariant bfound == ("b" in params && "b" !in left)
      invariant bvalue == if bfound then params["b"] else ""
      decreases |left|
    {
      var k :| k in left;
      left := left - {k};
      if k == "b" {
        bvalue := params["b"];
        bfound := true;
      } else {
        names := names + {k};
      }
    }
    assert names == params.Keys - {"b"};
    keys := SortedKeys(names);
  }

  /** One turn of the loop of `formatHeaderParams`. */
  method AddTag(s: string, line: string, k: string, v: string) returns (s': string, line': string)
    ensures s' + line' == s + line + (if |line| + |Tag(k, v)| > 75 then CRLF else "") + Tag(k, v)
    ensures |line'| == Column(|line|, |Tag(k, v)|)
  {
    var nextLength := 3 + |line| + |v| + |k|;
    if nextLength > 75 {
      s', line' := s + line + CRLF, "";
      assert s' + ("" + " " + k + "=" + v + ";") == s + line + CRLF + Tag(k, v);
    } else {
      s', line' := s, line;
      assert s + (line + " " + k + "=" + v + ";") == s + line + "" + Tag(k, v);
    }
    line' := line' + " " + k + "=" + v + ";";
  }

  method FormatHeaderParams(headerFieldName: string, params: TagMap) returns (s: string)
    ensures s == FormatParams(headerFieldName, params)
  {
    var keys, bvalue, bfound := SortParams(params);
    s := headerFieldName + ":";
    ghost var whole := s + FormatTags(keys, params, 0);
    var line := "";
    assert s + line == s && keys[0..] == keys;
    for i := 0 to |keys|
      invariant s + line + FormatTags(keys[i..], params, |line|) == whole
    {
      var k := keys[i];
      FormatTagsAt(keys, params, i, |line|);
      ghost var t, rest := Tag(k, params[k]), FormatTags(keys[i + 1..], params, Column(|line|, |Tag(k, params[k])|));
      Regroup(s + line, if |line| + |t| > 75 then CRLF else "", t, rest);
      s, line := AddTag(s, line, k, params[k]);
    }
    assert keys[|keys|..] == [] && s + line + "" == s + line == whole;
    if line != "" {
      s := s + line;
    } else {
      assert s + line == s;
    }
    assert s == whole;
    if bfound {
      var bfield := FoldHeaderField(" b=" + bvalue);
      s := s + CRLF + bfield;
    }
    assert whole + "" == whole;
    assert whole + (CRLF + Fold(" b=" + bvalue)) == whole + CRLF + Fold(" b=" + bvalue);
  }

  // ----- parsing

  datatype Piece = Blank | Malformed | Pair(key: string, value: string)

  /** One piece of a tag list between two semicolons. */
  function ParsePiece(p: string): Piece {
    var c := Cut(p, '=');
    if !c.found then (if TrimSpace(p) == "" then Blank else Malformed)
    else Pair(TrimSpace(c.before), TrimSpace(c.after))
  }

  datatype ParseResult = Params(params: TagMap) | MalformedParams | DuplicateTag

  function ParsePieces(pieces: seq<string>, m: TagMap): ParseResult {
    if pieces == [] then Params(m)
    else
      match ParsePiece(pieces[0])
      case Blank => ParsePieces(pieces[1..], m)
      case Malformed => MalformedParams
      case Pair(k, v) => if k in m then DuplicateTag else ParsePieces(pieces[1..], m[k := v])
  }

  function ParseFrom(s: string, m: TagMap): ParseResult {
    ParsePieces(Split(s, ';'), m)
  }

  /** `parseHeaderParams`. */
  function ParseParams(s: string): ParseResult {
    ParseFrom(s, map[])
  }

  method ParseHeaderParams(s: string) returns (result: ParseResult)
    ensures result == ParseParams(s)
  {
    var pairs := Split(s, ';');
    var params: TagMap := map[];
    for i := 0 to |pairs|
      invariant ParsePieces(pairs[i..], params) == ParseParams(s)
    {
      assert pairs[i..][1..] == pairs[i + 1..];
      var c := Cut(pairs[i], '=');
      if !c.found {
        if TrimSpace(pairs[i]) == "" {
          continue;
        }
        return MalformedParams;
      }
      var trimmedKey := TrimSpace(c.before);
      if trimmedKey in params {
        return DuplicateTag;
      }
      params := params[trimmedKey := TrimSpace(c.after)];
    }
    return Params(params);
  }

  // ----- cutting out the signature

  /** White space in the sense of the regular expression `\s`, which has no vertical tab. */
  predicate IsReSpace(c: char) {
    c == ' ' || c == '\t' || c == '\n' || c == '\r' || c == '\U{000C}'
  }

  function ReSpaces(s: string): (n: nat)
    ensures n <= |s| && (n < |s| ==> !IsReSpace(s[n]))
  {
    if s == "" || !IsReSpace(s[0]) then 0 else 1 + ReSpaces(s[1..])
  }

  /**
   A match of `(b\s*=)[^;]+` at the start of `s`: how much of it the group
   keeps and where it ends.
   */
  function MatchB(s: string): (r: Option<(nat, nat)>)
    ensures r.Some? ==> 0 < r.value.0 < r.value.1 <= |s|
  {
    if s == "" || s[0] != 'b' then None
    else
      var n := 1 + ReSpaces(s[1..]);
      if n < |s| && s[n] == '=' && n + 1 < |s| && s[n + 1] != ';'
      then Some((n + 1, n + 1 + IndexOf(s[n + 1..], ';')))
      else None
  }

  /** `removeSignature`: `ReplaceAllString(s, "$1")` for that expression. */
  function RemoveSignature(s: string): string
    decreases |s|
  {
    if s == "" then ""
    else
      match MatchB(s)
      case None => [s[0]] + RemoveSignature(s[1..])
      case Some((kept, end)) => s[..kept] + RemoveSignature(s[end..])
  }
}
