/**
 The tag list read and written, and the signature cut out of it, in terms of the
 text alone.
 */
module TagLaws {
  import opened Text
  import opened Strings
  import opened Header
  import opened Tags

  // ----- reading

  /** `k = v` with any white space around the two. */
  function Spaced(a: string, k: string, b: string, c: string, v: string, d: string): string {
    a + k + b + "=" + (c + v + d)
  }

  /** The piece says that tag `k` has value `v`. */
  ghost predicate Says(piece: string, k: string, v: string) {
    && Trimmed(k) && Trimmed(v) && '=' !in k
    && exists a, b, c, d ::
         AllOf(a, IsSpace) && AllOf(b, IsSpace) && AllOf(c, IsSpace) && AllOf(d, IsSpace)
         && piece == Spaced(a, k, b, c, v, d)
  }

  lemma {:induction false} BlankHasNoEquals(a: string)
    requires AllOf(a, IsSpace)
    ensures '=' !in a && ';' !in a
  {
  }

  lemma {:induction false} SaidIsParsed(piece: string, k: string, v: string)
    requires Says(piece, k, v)
    ensures ParsePiece(piece) == Pair(k, v)
  {
    var a, b, c, d :| AllOf(a, IsSpace) && AllOf(b, IsSpace) && AllOf(c, IsSpace) && AllOf(d, IsSpace)
                      && piece == Spaced(a, k, b, c, v, d);
    BlankHasNoEquals(a);
    BlankHasNoEquals(b);
    CutAt(a + k + b, '=', c + v + d);
    TrimSpaceAround(a, k, b);
    TrimSpaceAround(c, v, d);
  }

  /** Every piece with an `=` says something. */
  lemma {:induction false} ParsedIsSaid(piece: string)
    requires '=' in piece
    ensures ParsePiece(piece).Pair? && Says(piece, ParsePiece(piece).key, ParsePiece(piece).value)
  {
    IndexOfFirst(piece, '=');
    var i := IndexOf(piece, '=');
    var k, v := TrimSpace(piece[..i]), TrimSpace(piece[i + 1..]);
    var a, b := TrimSpaceParts(piece[..i]);
    var c, d := TrimSpaceParts(piece[i + 1..]);
    TrimSpaceIsTrimmed(piece[..i]);
    TrimSpaceIsTrimmed(piece[i + 1..]);
    KeyPart(a, k, b);
    AroundEquals(piece, i);
    SaysSpaced(a, k, b, c, v, d);
  }

  lemma {:induction false} AroundEquals(piece: string, i: nat)
    requires i < |piece| && piece[i] == '='
    ensures piece == piece[..i] + "=" + piece[i + 1..]
  {
  }

  lemma {:induction false} SaysSpaced(a: string, k: string, b: string, c: string, v: string, d: string)
    requires AllOf(a, IsSpace) && AllOf(b, IsSpace) && AllOf(c, IsSpace) && AllOf(d, IsSpace)
    requires Trimmed(k) && Trimmed(v) && '=' !in k
    ensures Says(Spaced(a, k, b, c, v, d), k, v)
  {
  }

  lemma {:induction false} KeyPart(a: string, k: string, b: string)
    requires '=' !in a + k + b
    ensures '=' !in k
  {
    assert forall i :: 0 <= i < |k| ==> (a + k + b)[|a| + i] == k[i];
  }

  /** No tag is named twice. */
  predicate NoRepeat(keys: seq<string>) {
    forall i, j :: 0 <= i < j < |keys| ==> keys[i] != keys[j]
  }

  function MapOf(keys: seq<string>, values: seq<string>): TagMap
    requires |keys| == |values|
  {
    if keys == [] then map[] else map[keys[0] := values[0]] + MapOf(keys[1..], values[1..])
  }

  /** The map says of every tag what its piece says, and has no other tags. */
  lemma {:induction false} MapOfIs(keys: seq<string>, values: seq<string>)
    requires |keys| == |values| && NoRepeat(keys)
    ensures forall k :: k in MapOf(keys, values) <==> k in keys
    ensures forall i :: 0 <= i < |keys| ==> keys[i] in MapOf(keys, values) && MapOf(keys, values)[keys[i]] == values[i]
  {
    if keys != [] {
      MapOfIs(keys[1..], values[1..]);
      forall i | 0 <= i < |keys| ensures keys[i] in MapOf(keys, values) && MapOf(keys, values)[keys[i]] == values[i] {
        if i > 0 {
          assert keys[i] == keys[1..][i - 1];
        } else {
          assert keys[0] !in MapOf(keys[1..], values[1..]);
        }
      }
    }
  }

  ghost predicate AllSay(pieces: seq<string>, keys: seq<string>, values: seq<string>) {
    && |pieces| == |keys| == |values|
    && forall i :: 0 <= i < |pieces| ==> Says(pieces[i], keys[i], values[i])
  }

  predicate AllNew(keys: seq<string>, m: TagMap) {
    forall i :: 0 <= i < |keys| ==> keys[i] !in m
  }

  lemma {:induction false} NoRepeatCons(keys: seq<string>, m: TagMap, v: string)
    requires keys != []
    ensures NoRepeat(keys) && AllNew(keys, m)
            <==> keys[0] !in m && NoRepeat(keys[1..]) && AllNew(keys[1..], m[keys[0] := v])
  {
    var m', rest := m[keys[0] := v], keys[1..];
    if NoRepeat(keys) && AllNew(keys, m) {
      forall i | 0 <= i < |rest| ensures rest[i] !in m' {
        assert rest[i] == keys[i + 1];
      }
    }
    if keys[0] !in m && NoRepeat(rest) && AllNew(rest, m') {
      forall i, j | 0 <= i < j < |keys| ensures keys[i] != keys[j] {
        assert keys[j] == rest[j - 1] && (i > 0 ==> keys[i] == rest[i - 1]);
      }
      forall i | 0 <= i < |keys| ensures keys[i] !in m {
        assert i > 0 ==> keys[i] == rest[i - 1];
      }
    }
  }

  lemma {:induction false} AddedFirst(m: TagMap, k: string, v: string, rest: TagMap)
    ensures m[k := v] + rest == m + (map[k := v] + rest)
  {
  }

  lemma {:induction false} AllSayTail(pieces: seq<string>, keys: seq<string>, values: seq<string>)
    requires AllSay(pieces, keys, values) && pieces != []
    ensures ParsePiece(pieces[0]) == Pair(keys[0], values[0]) && AllSay(pieces[1..], keys[1..], values[1..])
  {
    SaidIsParsed(pieces[0], keys[0], values[0]);
  }

  lemma {:induction false} PiecesParse(pieces: seq<string>, keys: seq<string>, values: seq<string>, m: TagMap)
    requires AllSay(pieces, keys, values)
    ensures ParsePieces(pieces, m)
         == if NoRepeat(keys) && AllNew(keys, m) then Params(m + MapOf(keys, values)) else DuplicateTag
  {
    if pieces == [] {
      assert m + map[] == m;
    } else {
      var k, v := keys[0], values[0];
      AllSayTail(pieces, keys, values);
      NoRepeatCons(keys, m, v);
      PiecesParse(pieces[1..], keys[1..], values[1..], m[k := v]);
      AddedFirst(m, k, v, MapOf(keys[1..], values[1..]));
    }
  }

  /** A list of tags separated by semicolons parses to those tags, unless one is named twice. */
  lemma {:induction false} TagTextParses(pieces: seq<string>, keys: seq<string>, values: seq<string>)
    requires pieces != [] && AllSay(pieces, keys, values)
    requires forall i :: 0 <= i < |pieces| ==> ';' !in pieces[i]
    ensures ParseParams(Join(pieces, ";")) == if NoRepeat(keys) then Params(MapOf(keys, values)) else DuplicateTag
  {
    SplitJoin(pieces, ';');
    PiecesParse(pieces, keys, values, map[]);
    assert map[] + MapOf(keys, values) == MapOf(keys, values);
  }

  lemma {:induction false} PiecesSnoc(pieces: seq<string>, last: string, m: TagMap)
    requires '=' !in last
    ensures ParsePieces(pieces + [last], m)
         == if AllOf(last, IsSpace) || !ParsePieces(pieces, m).Params? then ParsePieces(pieces, m) else MalformedParams
  {
    IndexOfAbsentEquals(last);
    if pieces == [] {
      assert (pieces + [last])[1..] == [] && (pieces + [last])[0] == last;
    } else {
      assert (pieces + [last])[1..] == pieces[1..] + [last] && (pieces + [last])[0] == pieces[0];
      match ParsePiece(pieces[0])
      case Blank => PiecesSnoc(pieces[1..], last, m);
      case Malformed =>
      case Pair(k, v) =>
        if k !in m {
          PiecesSnoc(pieces[1..], last, m[k := v]);
        }
    }
  }

  lemma {:induction false} IndexOfAbsentEquals(s: string)
    requires '=' !in s
    ensures ParsePiece(s) == if AllOf(s, IsSpace) then Blank else Malformed
  {
    IndexOfAbsent(s, '=');
    BlankIs(s);
  }

  lemma {:induction false} BlankIs(s: string)
    ensures TrimSpace(s) == "" <==> AllOf(s, IsSpace)
  {
    if AllOf(s, IsSpace) {
      TrimAway(s, IsSpace);
    }
    var a, e := TrimSpaceParts(s);
    AllOfAppend(a, e, IsSpace);
    assert a + "" + e == a + e;
  }

  lemma {:induction false} SplitAtEnd(s: string, last: string)
    requires ';' !in last
    ensures Split(s + ";" + last, ';') == Split(s, ';') + [last]
    decreases |s|
  {
    IndexOfFirst(s, ';');
    var i := IndexOf(s, ';');
    if i == |s| {
      SplitAt(s, ';', last);
      SplitOnly(last, ';');
    } else {
      SplitAtEnd(s[i + 1..], last);
      AroundSemicolon(s, i, last);
      SplitAt(s[..i], ';', s[i + 1..] + ";" + last);
      FirstAndLast(s[..i], Split(s[i + 1..], ';'), last);
    }
  }

  lemma {:induction false} AroundSemicolon(s: string, i: nat, last: string)
    requires i < |s| && s[i] == ';'
    ensures s + ";" + last == s[..i] + [';'] + (s[i + 1..] + ";" + last)
  {
  }

  lemma {:induction false} FirstAndLast(first: string, parts: seq<string>, last: string)
    ensures [first] + (parts + [last]) == [first] + parts + [last]
  {
  }

  /** White space after a last semicolon is nothing; other text without `=` there makes the list malformed. */
  lemma {:induction false} LastPiece(s: string, last: string)
    requires ';' !in last && '=' !in last
    ensures ParseParams(s + ";" + last)
         == if AllOf(last, IsSpace) || !ParseParams(s).Params? then ParseParams(s) else MalformedParams
  {
    SplitAtEnd(s, last);
    PiecesSnoc(Split(s, ';'), last, map[]);
  }

  // ----- printing

  function PlainTags(keys: seq<string>, params: TagMap): string
    requires forall k :: k in keys ==> k in params
  {
    if keys == [] then "" else keys[0] + "=" + params[keys[0]] + ";" + PlainTags(keys[1..], params)
  }

  lemma {:induction false} StripTag(k: string, v: string)
    ensures StripWhitespace(Tag(k, v)) == StripWhitespace(k + "=" + v + ";")
  {
    assert Tag(k, v) == " " + (k + "=" + v + ";");
    StripAppend(" ", k + "=" + v + ";");
    StripBlank(" ");
  }

  lemma {:induction false} StripTags(keys: seq<string>, params: TagMap, col: nat)
    requires forall k :: k in keys ==> k in params
    ensures StripWhitespace(FormatTags(keys, params, col)) == StripWhitespace(PlainTags(keys, params))
  {
    if keys != [] {
      var k, v := keys[0], params[keys[0]];
      var lead := if col + |Tag(k, v)| > 75 then CRLF else "";
      StripBlank(lead);
      StripTag(k, v);
      StripAppend(lead + Tag(k, v), FormatTags(keys[1..], params, Column(col, |Tag(k, v)|)));
      StripAppend(lead, Tag(k, v));
      StripTags(keys[1..], params, Column(col, |Tag(k, v)|));
      StripAppend(k + "=" + v + ";", PlainTags(keys[1..], params));
    }
  }

  lemma {:induction false} StripFolded(v: string)
    ensures StripWhitespace(CRLF + Fold(" b=" + v)) == StripWhitespace("b=" + v)
  {
    FoldStrip(" b=" + v);
    StripAppend(CRLF, Fold(" b=" + v));
    StripAppend(FoldBody(" b=" + v), CRLF);
    StripBlank(CRLF);
    assert " b=" + v == " " + ("b=" + v);
    StripAppend(" ", "b=" + v);
    StripBlank(" ");
  }

  /** Apart from white space a printed field is the name, a colon, the tags but `b` in byte order, and then `b`. */
  lemma {:induction false} PrintedIs(name: string, params: TagMap)
    ensures StripWhitespace(FormatParams(name, params))
         == StripWhitespace(name + ":" + PlainTags(OtherKeys(params), params)
                            + if "b" in params then "b=" + params["b"] else "")
  {
    var keys := OtherKeys(params);
    var end, plain := if "b" in params then CRLF + Fold(" b=" + params["b"]) else "",
                      if "b" in params then "b=" + params["b"] else "";
    if "b" in params {
      StripFolded(params["b"]);
    }
    StripTags(keys, params, 0);
    StripThree(name + ":", FormatTags(keys, params, 0), end);
    StripThree(name + ":", PlainTags(keys, params), plain);
  }

  lemma {:induction false} StripThree(a: string, b: string, c: string)
    ensures StripWhitespace(a + b + c) == StripWhitespace(a) + StripWhitespace(b) + StripWhitespace(c)
  {
    StripAppend(a + b, c);
    StripAppend(a, b);
  }

  /** The tags one after the other, each with a blank in front and a semicolon behind. */
  function OneRow(keys: seq<string>, params: TagMap): string
    requires forall k :: k in keys ==> k in params
  {
    if keys == [] then "" else " " + keys[0] + "=" + params[keys[0]] + ";" + OneRow(keys[1..], params)
  }

  /** Tags that fit in the 75 columns of the row stay in it. */
  lemma {:induction false} RowFits(keys: seq<string>, params: TagMap, col: nat)
    requires forall k :: k in keys ==> k in params
    requires col + |OneRow(keys, params)| <= 75
    ensures FormatTags(keys, params, col) == OneRow(keys, params)
  {
    if keys != [] {
      var t := " " + keys[0] + "=" + params[keys[0]] + ";";
      RowFits(keys[1..], params, col + |t|);
      assert "" + t + OneRow(keys[1..], params) == t + OneRow(keys[1..], params);
    }
  }

  /** A tag that does not fit starts a new row. */
  lemma {:induction false} RowBreaks(keys: seq<string>, params: TagMap, col: nat)
    requires keys != [] && forall k :: k in keys ==> k in params
    ensures var t := " " + keys[0] + "=" + params[keys[0]] + ";";
            FormatTags(keys, params, col)
            == (if col + |t| > 75 then "\r\n" else "") + t
               + FormatTags(keys[1..], params, if col + |t| > 75 then |t| else col + |t|)
  {
  }

  /** A folded line breaks after every 75 characters, and one blank stands in front of what follows. */
  lemma {:induction false} FoldIs(a: string, b: string)
    ensures |a| <= 75 ==> Fold(a) == a + "\r\n"
    ensures |a| == 75 && b != "" ==> Fold(a + b) == a + "\r\n " + Fold(b)
  {
    if |a| == 75 && b != "" {
      assert (a + b)[..75] == a && (a + b)[75..] == b;
      assert a + CRLF + " " == a + "\r\n ";
      ConcatAssoc(a + "\r\n ", FoldBody(b), CRLF);
    }
  }

  /** A printed field is the name, a colon, the rows, and `b` folded on rows of its own. */
  lemma {:induction false} RowsAndB(name: string, params: TagMap)
    ensures FormatParams(name, params)
         == name + ":" + FormatTags(OtherKeys(params), params, 0)
            + if "b" in params then "\r\n" + Fold(" b=" + params["b"]) else ""
  {
  }

  // ----- cutting

  /** White space in the sense of `\s`: no vertical tab. */
  predicate Whites(s: string) {
    forall i :: 0 <= i < |s| ==> s[i] in " \t\n\r\U{000C}"
  }

  /** `(b\s*=)[^;]+` matches at `i`: the group ends at `j` and the match at `e`, which is as far as it goes. */
  predicate MatchAt(s: string, i: nat, j: nat, e: nat) {
    && i + 1 < j < e <= |s| && s[i] == 'b' && Whites(s[i + 1..j - 1]) && s[j - 1] == '='
    && ';' !in s[j..e] && (e < |s| ==> s[e] == ';')
  }

  lemma {:induction false} WhiteIs(c: char)
    ensures IsReSpace(c) <==> c in " \t\n\r\U{000C}"
  {
    var s := " \t\n\r\U{000C}";
    assert s[0] == ' ' && s[1] == '\t' && s[2] == '\n' && s[3] == '\r' && s[4] == '\U{000C}';
  }

  lemma {:induction false} ReSpacesAre(s: string, n: nat)
    requires n <= |s| && Whites(s[..n]) && (n < |s| ==> !IsReSpace(s[n]))
    ensures ReSpaces(s) == n
  {
    if n > 0 {
      assert s[..n][0] == s[0];
      WhiteIs(s[0]);
      assert s[1..][..n - 1] == s[..n][1..];
      ReSpacesAre(s[1..], n - 1);
    }
  }

  lemma {:induction false} ReSpacesWhite(s: string)
    ensures Whites(s[..ReSpaces(s)])
  {
    if s != "" && IsReSpace(s[0]) {
      ReSpacesWhite(s[1..]);
      WhiteIs(s[0]);
      var n := ReSpaces(s);
      assert s[..n] == [s[0]] + s[1..][..n - 1];
    }
  }

  /** The match at the start of `s`, as the text has it. */
  lemma {:induction false} MatchedAtStart(s: string, j: nat, e: nat)
    requires MatchAt(s, 0, j, e)
    ensures MatchB(s) == Some((j, e))
  {
    var w := s[1..];
    assert w[..j - 2] == s[1..j - 1] && w[j - 2] == '=';
    ReSpacesAre(w, j - 2);
    assert s[j] == s[j..e][0];
    assert s[j..] == s[j..e] + s[e..];
    IndexOfPrefix(s[j..e], s[e..], ';');
  }

  lemma {:induction false} StartMatches(s: string)
    requires MatchB(s).Some?
    ensures MatchAt(s, 0, MatchB(s).value.0, MatchB(s).value.1)
  {
    var n := 1 + ReSpaces(s[1..]);
    ReSpacesWhite(s[1..]);
    assert s[1..n] == s[1..][..n - 1];
    var t := s[n + 1..];
    IndexOfFirst(t, ';');
    var e := n + 1 + IndexOf(t, ';');
    assert s[n + 1..e] == t[..IndexOf(t, ';')];
    assert t[0] == s[n + 1];
  }

  lemma {:induction false} MatchInTail(s: string, i: nat, j: nat, e: nat)
    requires s != "" && i < j && i < e
    ensures MatchAt(s, i + 1, j + 1, e + 1) <==> MatchAt(s[1..], i, j, e)
  {
    if i + 1 < j < e <= |s| - 1 {
      assert s[1..][i + 1..j - 1] == s[i + 2..j] && s[1..][j..e] == s[j + 1..e + 1];
    }
  }

  ghost predicate MatchesAt(s: string, i: nat) {
    exists j: nat, e: nat :: MatchAt(s, i, j, e)
  }

  lemma {:induction false} MatchedFirst(s: string)
    ensures MatchB(s).Some? ==> MatchesAt(s, 0)
  {
    if MatchB(s).Some? {
      StartMatches(s);
    }
  }

  lemma {:induction false} MatchedLater(s: string, i: nat)
    requires s != ""
    ensures MatchesAt(s[1..], i) ==> MatchesAt(s, i + 1)
  {
    if MatchesAt(s[1..], i) {
      var j: nat, e: nat :| MatchAt(s[1..], i, j, e);
      MatchInTail(s, i, j, e);
    }
  }

  lemma {:induction false} NoneInTail(s: string, n: nat)
    requires s != "" && forall i: nat :: i <= n ==> !MatchesAt(s, i)
    ensures MatchB(s).None? && forall i: nat :: i < n ==> !MatchesAt(s[1..], i)
  {
    MatchedFirst(s);
    forall i: nat | i < n ensures !MatchesAt(s[1..], i) {
      MatchedLater(s, i);
    }
  }

  /** Of the leftmost match only the group stays, and the search goes on behind it. */
  lemma {:induction false} CutFirst(s: string, i: nat, j: nat, e: nat)
    requires MatchAt(s, i, j, e) && forall m: nat :: m < i ==> !MatchesAt(s, m)
    ensures RemoveSignature(s) == s[..j] + RemoveSignature(s[e..])
  {
    if i == 0 {
      MatchedAtStart(s, j, e);
    } else {
      MatchInTail(s, i - 1, j - 1, e - 1);
      NoneInTail(s, i - 1);
      CutFirst(s[1..], i - 1, j - 1, e - 1);
      TailSlices(s, j, e, RemoveSignature(s[e..]));
    }
  }

  lemma {:induction false} TailSlices(s: string, j: nat, e: nat, r: string)
    requires 1 <= j <= |s| && 1 <= e <= |s|
    ensures s[1..][e - 1..] == s[e..] && [s[0]] + (s[1..][..j - 1] + r) == s[..j] + r
  {
    assert [s[0]] + s[1..][..j - 1] == s[..j];
    ConcatAssoc([s[0]], s[1..][..j - 1], r);
  }

  /** Text without a match stays as it is. */
  lemma {:induction false} CutNothing(s: string)
    requires forall m: nat :: m < |s| ==> !MatchesAt(s, m)
    ensures RemoveSignature(s) == s
  {
    if s != "" {
      NoneInTail(s, |s| - 1);
      CutNothing(s[1..]);
    }
  }
}
