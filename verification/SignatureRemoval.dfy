/**
 Cutting the signature out of a printed field gives the field printed without
 one, and the layout of printed fields.
 */
module SignatureRemoval {
  import opened Text
  import opened Strings
  import opened Header
  import opened Tags
  import opened TagRoundTrip

  // ----- where the expression matches

  /** The expression matches nowhere in `p`. */
  predicate NoMatchIn(p: string) {
    forall i :: 0 <= i < |p| ==> MatchB(p[i..]).None?
  }

  /** A tag value that the expression leaves alone in `v;`. */
  predicate Silent(v: string) {
    NoMatchIn(v + ";")
  }

  /** The last character of `p` cannot be part of an unfinished match. */
  predicate Seam(p: string) {
    p != "" && p[|p| - 1] != 'b' && !IsReSpace(p[|p| - 1])
  }

  lemma {:induction false} ReSpacesInside(a: string, q: string)
    requires a != "" && !IsReSpace(a[|a| - 1])
    ensures ReSpaces(a) < |a| && ReSpaces(a + q) == ReSpaces(a)
  {
    if IsReSpace(a[0]) {
      assert (a + q)[1..] == a[1..] + q;
      ReSpacesInside(a[1..], q);
    }
  }

  lemma {:induction false} NoMatchTail(p: string)
    requires p != ""
    ensures NoMatchIn(p) <==> MatchB(p).None? && NoMatchIn(p[1..])
  {
    assert p[0..] == p;
    forall i | 0 <= i < |p[1..]| ensures p[1..][i..] == p[i + 1..] {
    }
    if MatchB(p).None? && NoMatchIn(p[1..]) {
      forall i | 0 <= i < |p| ensures MatchB(p[i..]).None? {
        if i > 0 {
          assert MatchB(p[1..][i - 1..]).None?;
        }
      }
    }
  }

  /** A match inside text that ends with a semicolon does not depend on what follows. */
  lemma {:induction false} MatchIsLocal(p: string, q: string)
    requires p != "" && p[|p| - 1] == ';'
    ensures MatchB(p + q) == MatchB(p)
  {
    if p[0] == 'b' {
      assert (p + q)[1..] == p[1..] + q;
      ReSpacesInside(p[1..], q);
      var n := 1 + ReSpaces(p[1..]);
      if p[n] == '=' {
        var r := p[n + 1..];
        assert (p + q)[n + 1..] == r + q;
        IndexOfWithin(r, q, ';');
      }
    }
  }

  lemma {:induction false} IndexOfWithin(r: string, q: string, c: char)
    requires r != "" && r[|r| - 1] == c
    ensures IndexOf(r + q, c) == IndexOf(r, c) < |r|
  {
    if r[0] != c {
      assert (r + q)[1..] == r[1..] + q;
      IndexOfWithin(r[1..], q, c);
    }
  }

  /** Removal works separately on the pieces that semicolons end. */
  lemma {:induction false} RemoveSplits(p: string, q: string)
    requires p == "" || p[|p| - 1] == ';'
    ensures RemoveSignature(p + q) == RemoveSignature(p) + RemoveSignature(q)
    decreases |p|
  {
    if p == "" {
      assert p + q == q;
    } else {
      MatchIsLocal(p, q);
      match MatchB(p)
      case None =>
        assert (p + q)[1..] == p[1..] + q;
        RemoveSplits(p[1..], q);
        ConcatAssoc([p[0]], RemoveSignature(p[1..]), RemoveSignature(q));
      case Some((kept, end)) =>
        assert (p + q)[..kept] == p[..kept] && (p + q)[end..] == p[end..] + q;
        RemoveSplits(p[end..], q);
        ConcatAssoc(p[..kept], RemoveSignature(p[end..]), RemoveSignature(q));
    }
  }

  lemma {:induction false} RemoveShortens(p: string)
    ensures |RemoveSignature(p)| <= |p|
    decreases |p|
  {
    if p != "" {
      match MatchB(p)
      case None => RemoveShortens(p[1..]);
      case Some((kept, end)) => RemoveShortens(p[end..]);
    }
  }

  /** Removal changes nothing exactly when there is no match. */
  lemma {:induction false} RemoveIsIdentity(p: string)
    ensures RemoveSignature(p) == p <==> NoMatchIn(p)
    decreases |p|
  {
    if p != "" {
      NoMatchTail(p);
      match MatchB(p)
      case None =>
        RemoveIsIdentity(p[1..]);
        assert p == [p[0]] + p[1..];
        Cancel(RemoveSignature(p[1..]), p[1..], [p[0]]);
      case Some((kept, end)) =>
        RemoveShortens(p[end..]);
    }
  }

  /** Text without an equals sign is kept, whatever follows its end. */
  lemma {:induction false} RemoveKeeps(p: string, q: string)
    requires '=' !in p && (p == "" || Seam(p))
    ensures RemoveSignature(p + q) == p + RemoveSignature(q)
    decreases |p|
  {
    if p == "" {
      assert p + q == q;
    } else {
      assert (p + q)[1..] == p[1..] + q;
      NoMatchInKey(p, q);
      RemoveKeeps(p[1..], q);
      ConcatAssoc([p[0]], p[1..], RemoveSignature(q));
      assert [p[0]] + p[1..] == p;
    }
  }

  lemma {:induction false} NoMatchInKey(p: string, q: string)
    requires '=' !in p && Seam(p)
    ensures MatchB(p + q).None?
  {
    if p[0] == 'b' {
      assert (p + q)[1..] == p[1..] + q;
      ReSpacesInside(p[1..], q);
      assert p[1..][ReSpaces(p[1..])] in p;
    }
  }

  // ----- the printed field

  /** A tag name after which the expression cannot start to match. */
  predicate SealedKey(k: string) {
    '=' !in k && Seam(k)
  }

  predicate SealedKeys(params: TagMap) {
    forall k :: k in params && k != "b" ==> SealedKey(k)
  }

  lemma {:induction false} TagSilent(k: string, v: string)
    requires SealedKey(k)
    ensures NoMatchIn(Tag(k, v)) <==> Silent(v)
  {
    var p := " " + k;
    assert Tag(k, v) == p + ("=" + (v + ";"));
    RemoveKeeps(p, "=" + (v + ";"));
    RemoveIsIdentity(Tag(k, v));
    RemoveIsIdentity(v + ";");
    var e := "=" + (v + ";");
    assert e[1..] == v + ";" && RemoveSignature(e) == "=" + RemoveSignature(v + ";");
    Cancel(RemoveSignature(e), e, p);
    Cancel(RemoveSignature(v + ";"), v + ";", "=");
  }

  /** Printed tags survive removal exactly when all their values are silent. */
  lemma {:induction false} TagsSurvive(keys: seq<string>, params: TagMap, col: nat)
    requires forall k :: k in keys ==> k in params && SealedKey(k)
    ensures var t := FormatTags(keys, params, col);
            && (t == "" || t[|t| - 1] == ';')
            && (RemoveSignature(t) == t <==> forall k :: k in keys ==> Silent(params[k]))
    decreases |keys|
  {
    if keys != [] {
      var k, tail := keys[0], keys[1..];
      var t := Tag(k, params[k]);
      var lead := if col + |t| > 75 then CRLF else "";
      var u := FormatTags(tail, params, Column(col, |t|));
      assert k in keys && forall x :: x in keys <==> x == k || x in tail;
      TagsSurvive(tail, params, Column(col, |t|));
      LedTagSurvives(lead, k, params[k], u);
    }
  }

  lemma {:induction false} LedTagSurvives(lead: string, k: string, v: string, u: string)
    requires SealedKey(k) && 'b' !in lead
    ensures RemoveSignature(lead + Tag(k, v) + u) == lead + Tag(k, v) + u <==> Silent(v) && RemoveSignature(u) == u
  {
    var t := Tag(k, v);
    TagSilent(k, v);
    RemoveIsIdentity(t);
    RemoveSplits(lead + t, u);
    RemoveBlank(lead, t);
    RemoveShortens(t);
    RemoveShortens(u);
    BothSurvive(lead, t, u);
  }

  lemma {:induction false} BothSurvive(lead: string, t: string, u: string)
    requires |RemoveSignature(t)| <= |t| && |RemoveSignature(u)| <= |u|
    ensures lead + RemoveSignature(t) + RemoveSignature(u) == lead + t + u
            <==> RemoveSignature(t) == t && RemoveSignature(u) == u
  {
    var x, y := RemoveSignature(t), RemoveSignature(u);
    if lead + x + y == lead + t + u {
      assert |x| == |t|;
      assert x == (lead + x + y)[|lead|..|lead| + |x|] && t == (lead + t + u)[|lead|..|lead| + |t|];
      assert y == (lead + x + y)[|lead| + |x|..] && u == (lead + t + u)[|lead| + |t|..];
    }
  }

  /** The folded `b` tag loses its value, and everything after it. */
  lemma {:induction false} RemoveB(bv: string)
    requires ';' !in bv
    ensures RemoveSignature(CRLF + Fold(" b=" + bv)) == CRLF + " b="
  {
    var v := Fold(" b=" + bv)[3..];
    FoldStart(bv);
    FoldedValue(bv);
    var s := "b=" + v;
    var lead := CRLF + " ";
    assert CRLF + (" b=" + v) == lead + s;
    RemoveBValue(v);
    RemoveBlank(lead, s);
    assert lead + "b=" == CRLF + " b=";
  }

  lemma {:induction false} FoldedValue(bv: string)
    requires ';' !in bv
    ensures |Fold(" b=" + bv)| >= 5 && var v := Fold(" b=" + bv)[3..]; v != "" && ';' !in v
  {
    FoldIsLong(" b=" + bv);
    FoldHasNo(" b=" + bv, ';');
    assert forall x :: x in Fold(" b=" + bv)[3..] ==> x in Fold(" b=" + bv);
  }

  lemma {:induction false} FoldIsLong(kv: string)
    ensures |Fold(kv)| >= |kv| + 2
    decreases |kv|
  {
    if |kv| > 75 {
      FoldIsLong(kv[75..]);
    }
  }

  lemma {:induction false} RemoveBValue(v: string)
    requires v != "" && ';' !in v
    ensures RemoveSignature("b=" + v) == "b="
  {
    var s := "b=" + v;
    assert s[1..] == "=" + v && s[2..] == v;
    assert ReSpaces(s[1..]) == 0;
    IndexOfAbsent(v, ';');
    assert v[0] in v;
    assert MatchB(s) == Some((2, |s|));
    assert s[..2] == "b=" && s[|s|..] == "";
  }

  lemma {:induction false} RemoveBlank(a: string, s: string)
    requires 'b' !in a
    ensures RemoveSignature(a + s) == a + RemoveSignature(s)
  {
    if a == "" {
      assert a + s == s;
    } else {
      assert (a + s)[1..] == a[1..] + s && a[0] in a;
      RemoveBlank(a[1..], s);
      ConcatAssoc([a[0]], a[1..], RemoveSignature(s));
      assert [a[0]] + a[1..] == a;
    }
  }

  /** Everything in a printed field before the value of `b`. */
  function Unsigned(name: string, params: TagMap): string {
    name + ":" + FormatTags(OtherKeys(params), params, 0) + CRLF + " b="
  }

  /** Removal works on the tags before `b` and leaves `b=` at the end. */
  lemma {:induction false} RemovedText(name: string, params: TagMap)
    requires '=' !in name && SealedKeys(params)
    requires "b" in params && ';' !in params["b"]
    ensures RemoveSignature(FormatParams(name, params))
         == name + ":" + RemoveSignature(FormatTags(OtherKeys(params), params, 0)) + CRLF + " b="
  {
    var t := FormatTags(OtherKeys(params), params, 0);
    var bf := CRLF + Fold(" b=" + params["b"]);
    TagsSurvive(OtherKeys(params), params, 0);
    RemoveTail(t, params["b"]);
    RemoveKeeps(name + ":", t + bf);
    ConcatAssoc(name + ":", t, bf);
    UnsignedText(name, RemoveSignature(t));
  }

  lemma {:induction false} RemoveTail(t: string, bv: string)
    requires (t == "" || t[|t| - 1] == ';') && ';' !in bv
    ensures RemoveSignature(t + (CRLF + Fold(" b=" + bv))) == RemoveSignature(t) + (CRLF + " b=")
  {
    RemoveSplits(t, CRLF + Fold(" b=" + bv));
    RemoveB(bv);
  }

  /** Removal leaves a printed field up to `b=` exactly when the other values are silent. */
  lemma {:induction false} RemovesExactly(name: string, params: TagMap)
    requires '=' !in name && SealedKeys(params)
    requires "b" in params && ';' !in params["b"]
    ensures var r := RemoveSignature(FormatParams(name, params));
            && (r == Unsigned(name, params) <==> forall k :: k in params && k != "b" ==> Silent(params[k]))
            && r[|r| - 1..] == "="
  {
    var t := FormatTags(OtherKeys(params), params, 0);
    TagsSurvive(OtherKeys(params), params, 0);
    RemovedText(name, params);
    Cancel(name + ":" + RemoveSignature(t) + CRLF, name + ":" + t + CRLF, " b=");
    Cancel(name + ":" + RemoveSignature(t), name + ":" + t, CRLF);
    Cancel(RemoveSignature(t), t, name + ":");
  }

  lemma {:induction false} UnsignedText(name: string, t: string)
    ensures name + ":" + (t + (CRLF + " b=")) == name + ":" + t + CRLF + " b="
  {
  }

  /** The field printed with an empty `b` ends right after `b=`. */
  lemma {:induction false} PrintedUnsigned(name: string, params: TagMap)
    requires "b" in params
    ensures FormatParams(name, params["b" := ""]) == Unsigned(name, params) + CRLF
  {
    var bare := params["b" := ""];
    assert bare.Keys == params.Keys;
    SameTags(OtherKeys(params), bare, params, 0);
    var t := FormatTags(OtherKeys(params), params, 0);
    assert " b=" + "" == " b=";
    assert FormatParams(name, bare) == name + ":" + t + (CRLF + (" b=" + CRLF));
    assert name + ":" + t + (CRLF + (" b=" + CRLF)) == name + ":" + t + CRLF + " b=" + CRLF;
  }

  lemma {:induction false} SameTags(keys: seq<string>, p: TagMap, q: TagMap, col: nat)
    requires forall k :: k in keys ==> k in p && k in q && p[k] == q[k]
    ensures FormatTags(keys, p, col) == FormatTags(keys, q, col)
    decreases |keys|
  {
    if keys != [] {
      assert keys[0] in keys && forall x :: x in keys[1..] ==> x in keys;
      SameTags(keys[1..], p, q, Column(col, |Tag(keys[0], p[keys[0]])|));
    }
  }

  /**
   Removing the signature and trimming the line end gives the field as it was
   printed for signing, with `b` empty, for every signature and every layout of
   the other tags, exactly when the expression matches in no other tag.
   */
  lemma {:induction false} RemovalUndoesSigning(name: string, params: TagMap)
    requires '=' !in name && SealedKeys(params)
    requires "b" in params && ';' !in params["b"]
    ensures TrimRight(RemoveSignature(FormatParams(name, params)), IsLineEnd)
            == TrimRight(FormatParams(name, params["b" := ""]), IsLineEnd)
            <==> forall k :: k in params && k != "b" ==> Silent(params[k])
  {
    RemovesExactly(name, params);
    PrintedUnsigned(name, params);
    TrimRightAppend(Unsigned(name, params), CRLF, IsLineEnd);
  }

  lemma {:induction false} Loud()
    ensures !Silent("b=x")
  {
    var s := "b=x" + ";";
    assert s[1..] == "=x;" && ReSpaces(s[1..]) == 0;
    assert s[0..] == s && MatchB(s[0..]).Some?;
  }

  /** A selector `b=x` is cut as well, whatever the signature is. */
  lemma {:induction false} OtherTagIsCut(signature: string)
    requires ';' !in signature
    ensures var params := map["s" := "b=x", "b" := signature];
            TrimRight(RemoveSignature(FormatParams("DKIM-Signature", params)), IsLineEnd)
            != TrimRight(FormatParams("DKIM-Signature", params["b" := ""]), IsLineEnd)
  {
    var params := map["s" := "b=x", "b" := signature];
    Loud();
    RemovalUndoesSigning("DKIM-Signature", params);
    assert "s" in params && !Silent(params["s"]);
  }

  // ----- layout

  /**
   Each stretch of `s` between line ends is at most 75 characters long or holds
   at most one tag; `used` columns and `tags` semicolons come before `s`.
   */
  predicate RowsFit(s: string, used: nat, tags: nat) {
    if s == "" then used <= 75 || tags <= 1
    else if IsLineEnd(s[0]) then (used <= 75 || tags <= 1) && RowsFit(s[1..], 0, 0)
    else RowsFit(s[1..], used + 1, if s[0] == ';' then tags + 1 else tags)
  }

  lemma {:induction false} RowsFitText(a: string, b: string, used: nat, tags: nat)
    requires NoneOf(a, IsLineEnd) && ';' !in a
    ensures RowsFit(a + b, used, tags) <==> RowsFit(b, used + |a|, tags)
  {
    if a == "" {
      assert a + b == b;
    } else {
      assert (a + b)[1..] == a[1..] + b && a[0] in a;
      RowsFitText(a[1..], b, used + 1, tags);
    }
  }

  lemma {:induction false} RowsFitTag(k: string, v: string, b: string, used: nat, tags: nat)
    requires CleanKey(k) && CleanValue(v)
    ensures RowsFit(Tag(k, v) + b, used, tags) <==> RowsFit(b, used + |Tag(k, v)|, tags + 1)
  {
    var a := " " + k + "=" + v;
    assert Tag(k, v) + b == a + (";" + b);
    RowsFitText(a, ";" + b, used, tags);
    assert (";" + b)[1..] == b;
  }

  lemma {:induction false} RowsFitBreak(b: string, used: nat, tags: nat)
    requires used <= 75 || tags <= 1
    ensures RowsFit(CRLF + b, used, tags) <==> RowsFit(b, 0, 0)
  {
    assert (CRLF + b)[1..] == "\n" + b && ("\n" + b)[1..] == b;
  }

  /** Each line of printed tags holds at most 75 characters or a single tag. */
  lemma {:induction false} TagRowsFit(keys: seq<string>, params: TagMap, col: nat, tags: nat)
    requires forall k :: k in keys ==> k in params && CleanKey(k) && CleanValue(params[k])
    requires col <= 75 || tags <= 1
    ensures RowsFit(FormatTags(keys, params, col), col, tags)
    decreases |keys|
  {
    if keys != [] {
      var k, tail := keys[0], keys[1..];
      var t := Tag(k, params[k]);
      assert k in keys && forall x :: x in tail ==> x in keys;
      var u := FormatTags(tail, params, Column(col, |t|));
      if col + |t| > 75 {
        ConcatAssoc(CRLF, t, u);
        RowsFitBreak(t + u, col, tags);
        RowsFitTag(k, params[k], u, 0, 0);
        TagRowsFit(tail, params, |t|, 1);
      } else {
        assert "" + t + u == t + u;
        RowsFitTag(k, params[k], u, col, tags);
        TagRowsFit(tail, params, col + |t|, tags + 1);
      }
    }
  }
}
