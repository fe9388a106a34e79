/**
 What removal takes out of a printed field when the expression also matches in
 another tag value: at least one visible character, which neither header
 canonicalization gives back.
 */
module SignatureLoss {
  import opened Text
  import opened Strings
  import opened BodyCanonical
  import opened Header
  import opened HeaderCanonical
  import opened Tags
  import opened TagRoundTrip
  import opened SignatureRemoval

  // ----- visible characters

  /** The number of characters other than folding white space. */
  function Visible(s: string): nat {
    if s == "" then 0 else (if IsFws(s[0]) then 0 else 1) + Visible(s[1..])
  }

  lemma {:induction false} VisibleAppend(a: string, b: string)
    ensures Visible(a + b) == Visible(a) + Visible(b)
  {
    if a == "" {
      assert a + b == b;
    } else {
      assert (a + b)[1..] == a[1..] + b;
      VisibleAppend(a[1..], b);
    }
  }

  lemma {:induction false} VisibleSplit(s: string, i: nat)
    requires i <= |s|
    ensures Visible(s) == Visible(s[..i]) + Visible(s[i..])
  {
    VisibleAppend(s[..i], s[i..]);
    assert s[..i] + s[i..] == s;
  }

  lemma {:induction false} VisibleLast(s: string)
    requires s != "" && !IsFws(s[|s| - 1])
    ensures Visible(s) > 0
  {
    VisibleSplit(s, |s| - 1);
    assert s[|s| - 1..] == [s[|s| - 1]];
  }

  function TotalLength(words: seq<string>): nat {
    if words == [] then 0 else |words[0]| + TotalLength(words[1..])
  }

  lemma {:induction false} VisibleWord(w: string)
    requires NoneOf(w, IsFws)
    ensures Visible(w) == |w|
  {
    if w != "" {
      VisibleWord(w[1..]);
    }
  }

  lemma {:induction false} VisibleInFields(s: string)
    ensures TotalLength(Fields(s, IsFws)) == Visible(s)
    decreases |s|
  {
    if s != "" {
      if IsFws(s[0]) {
        VisibleInFields(s[1..]);
      } else {
        var n := WordLength(s, IsFws);
        VisibleWord(s[..n]);
        VisibleSplit(s, n);
        VisibleInFields(s[n..]);
      }
    }
  }

  /** The relaxed form of a value shows how many visible characters it has. */
  lemma {:induction false} RelaxedShowsVisible(v: string, w: string)
    requires RelaxValue(v) == RelaxValue(w)
    ensures Visible(v) == Visible(w)
  {
    FieldsAreWords(v, IsFws);
    FieldsAreWords(w, IsFws);
    FieldsJoin(Fields(v, IsFws), ' ', IsFws);
    FieldsJoin(Fields(w, IsFws), ' ', IsFws);
    VisibleInFields(v);
    VisibleInFields(w);
  }

  // ----- removal loses visible characters

  lemma {:induction false} RemovalShrinks(p: string)
    ensures Visible(RemoveSignature(p)) <= Visible(p)
    decreases |p|
  {
    if p != "" {
      match MatchB(p)
      case None =>
        RemovalShrinks(p[1..]);
        VisibleAppend([p[0]], RemoveSignature(p[1..]));
        VisibleSplit(p, 1);
        assert p[..1] == [p[0]];
      case Some((kept, end)) =>
        RemovalShrinks(p[end..]);
        VisibleAppend(p[..kept], RemoveSignature(p[end..]));
        VisibleSplit(p, end);
        VisibleSplit(p[..end], kept);
        assert p[..end][..kept] == p[..kept];
    }
  }

  /** A match in text that ends visibly before its only semicolon takes that end out. */
  lemma {:induction false} MatchLoses(w: string)
    requires w != "" && ';' !in w && !IsFws(w[|w| - 1])
    requires !NoMatchIn(w + ";")
    ensures Visible(RemoveSignature(w + ";")) < Visible(w + ";")
  {
    var p := w + ";";
    NoMatchTail(p);
    OnlySemicolon();
    var rest := w[1..];
    assert p[1..] == rest + ";";
    match MatchB(p)
    case None =>
      assert rest == "" ==> rest + ";" == ";";
      MatchLoses(rest);
      VisibleAppend([p[0]], RemoveSignature(p[1..]));
      VisibleSplit(p, 1);
      assert p[..1] == [p[0]];
    case Some((kept, end)) => CutLoses(w, kept, end);
  }

  lemma {:induction false} OnlySemicolon()
    ensures NoMatchIn(";") && RemoveSignature(";") == ";"
  {
    assert RemoveSignature(";"[1..]) == "";
  }

  lemma {:induction false} CutLoses(w: string, kept: nat, end: nat)
    requires w != "" && ';' !in w && !IsFws(w[|w| - 1])
    requires MatchB(w + ";") == Some((kept, end))
    ensures Visible(RemoveSignature(w + ";")) < Visible(w + ";")
  {
    var p := w + ";";
    MatchEnds(w, kept, end);
    assert p[end..] == ";" && p[..end] == w && w[..kept] == p[..kept];
    OnlySemicolon();
    VisibleAppend(w[..kept], ";");
    VisibleAppend(w, ";");
    VisibleSplit(w, kept);
    VisibleLast(w[kept..]);
  }

  lemma {:induction false} MatchEnds(w: string, kept: nat, end: nat)
    requires ';' !in w && MatchB(w + ";") == Some((kept, end))
    ensures kept < end == |w|
  {
    var p := w + ";";
    var a := w[kept..];
    assert p[kept] != ';' && p[kept..] == a + ";";
    IndexOfPrefix(a, ";", ';');
  }

  // ----- the printed tags

  lemma {:induction false} TagLoses(k: string, v: string)
    requires SealedKey(k) && CleanKey(k) && CleanValue(v) && !Silent(v)
    ensures Visible(RemoveSignature(Tag(k, v))) < Visible(Tag(k, v))
  {
    TagSilent(k, v);
    OnlySemicolon();
    assert v != "" || v + ";" == ";";
    var w := " " + k + "=" + v;
    assert w[|w| - 1] == v[|v| - 1];
    MatchLoses(w);
  }

  lemma {:induction false} LedTagLoses(lead: string, t: string, u: string)
    requires 'b' !in lead && t != "" && t[|t| - 1] == ';'
    ensures Visible(lead + t + u) - Visible(RemoveSignature(lead + t + u))
         == (Visible(t) - Visible(RemoveSignature(t))) + (Visible(u) - Visible(RemoveSignature(u)))
  {
    RemoveSplits(lead + t, u);
    RemoveBlank(lead, t);
    VisibleAppend(lead + t, u);
    VisibleAppend(lead, t);
    VisibleAppend(lead + RemoveSignature(t), RemoveSignature(u));
    VisibleAppend(lead, RemoveSignature(t));
  }

  /** A value that is not silent costs the printed tags a visible character. */
  lemma {:induction false} TagsLose(keys: seq<string>, params: TagMap, col: nat)
    requires forall k :: k in keys ==> k in params && SealedKey(k) && CleanKey(k) && CleanValue(params[k])
    requires exists k :: k in keys && !Silent(params[k])
    ensures var t := FormatTags(keys, params, col); Visible(RemoveSignature(t)) < Visible(t)
    decreases |keys|
  {
    var k, tail := keys[0], keys[1..];
    assert keys == [k] + tail;
    var t := Tag(k, params[k]);
    var lead := if col + |t| > 75 then CRLF else "";
    var u := FormatTags(tail, params, Column(col, |t|));
    LedTagLoses(lead, t, u);
    RemovalShrinks(t);
    RemovalShrinks(u);
    if Silent(params[k]) {
      TagsLose(tail, params, Column(col, |t|));
    } else {
      TagLoses(k, params[k]);
    }
  }

  // ----- the canonical forms

  /** A relaxed value that ends in the empty `b` tag. */
  function RelaxedUnsigned(x: string): string {
    RelaxValue(x + CRLF + " b=")
  }

  lemma {:induction false} RelaxedUnsignedIs(x: string)
    ensures Fields(x + CRLF + " b=", IsFws) == Fields(x, IsFws) + ["b="]
    ensures var r := RelaxedUnsigned(x); r != "" && r[|r| - 1] == '='
  {
    FieldsAppend(x, CRLF, " b=", IsFws);
    assert Fields(" b=", IsFws) == ["b="] by {
      FieldsWord("b=", "", IsFws);
      assert "b=" + "" == "b=" && " b="[1..] == "b=";
    }
    LastOfJoin(Fields(x, IsFws), "b=", " ");
  }

  lemma {:induction false} LastOfJoin(words: seq<string>, last: string, sep: string)
    requires last != ""
    ensures var j := Join(words + [last], sep); |j| >= |last| && j[|j| - 1] == last[|last| - 1]
  {
    if words != [] {
      LastOfJoin(words[1..], last, sep);
      assert (words + [last])[1..] == words[1..] + [last];
    }
  }

  /** The trimmed relaxed form of a field that ends in the empty `b` tag. */
  lemma {:induction false} RelaxedTrims(name: string, x: string)
    requires ':' !in name
    ensures TrimRight(RelaxHeader(name + ":" + x + CRLF + " b="), IsLineEnd)
            == RelaxName(name) + ":" + RelaxedUnsigned(x)
  {
    var body := RelaxName(name) + ":" + RelaxedUnsigned(x);
    assert name + ":" + x + CRLF + " b=" == name + [':'] + (x + CRLF + " b=");
    RelaxCut(name, x + CRLF + " b=");
    RelaxedUnsignedIs(x);
    assert body[|body| - 1] == '=';
    TrimRightAppend(body, CRLF, IsLineEnd);
  }

  lemma {:induction false} RelaxedDiffers(name: string, x: string, y: string)
    requires ':' !in name && Visible(x) != Visible(y)
    ensures TrimRight(RelaxHeader(name + ":" + x + CRLF + " b="), IsLineEnd)
         != TrimRight(RelaxHeader(name + ":" + y + CRLF + " b="), IsLineEnd)
  {
    RelaxedTrims(name, x);
    RelaxedTrims(name, y);
    Cancel(RelaxedUnsigned(x), RelaxedUnsigned(y), RelaxName(name) + ":");
    if RelaxedUnsigned(x) == RelaxedUnsigned(y) {
      RelaxedShowsVisible(x + CRLF + " b=", y + CRLF + " b=");
      VisibleAppend(x + CRLF, " b=");
      VisibleAppend(y + CRLF, " b=");
      VisibleAppend(x, CRLF);
      VisibleAppend(y, CRLF);
    }
  }

  // ----- the length of the whole field

  lemma {:induction false} JoinLonger(words: seq<string>, x: seq<string>, w: string, sep: string)
    requires x != [] && |x[0]| >= |w|
    ensures |Join(words + x, sep)| >= |Join(words + [w], sep)|
  {
    if words == [] {
      assert [] + x == x && [] + [w] == [w];
    } else {
      JoinLonger(words[1..], x, w, sep);
      assert (words + x)[1..] == words[1..] + x && (words + [w])[1..] == words[1..] + [w];
    }
  }

  lemma {:induction false} FirstOfB(v: string)
    ensures var x := Fields(" b=" + v, IsFws); x != [] && |x[0]| >= 2
  {
    var s := "b=" + v;
    assert (" b=" + v)[1..] == s;
    assert s[0] == 'b' && s[1] == '=';
    assert WordLength(s, IsFws) >= 2;
  }

  /** The whole printed field, in either canonical form, is longer than what is hashed of it. */
  lemma {:induction false} FieldIsLonger(alg: Algorithm, name: string, params: TagMap)
    requires ':' !in name && "b" in params
    ensures |CanonicalHeader(alg, FormatParams(name, params))|
          > |TrimRight(CanonicalHeader(alg, FormatParams(name, params["b" := ""])), IsLineEnd)|
  {
    var t, v := FormatTags(OtherKeys(params), params, 0), Fold(" b=" + params["b"])[3..];
    PrintedUnsigned(name, params);
    FoldStart(params["b"]);
    FoldIsLong(" b=" + params["b"]);
    assert FormatParams(name, params) == name + ":" + t + (CRLF + (" b=" + v));
    if alg == Simple {
      TrimRightAppend(Unsigned(name, params), CRLF, IsLineEnd);
    } else {
      RelaxedIsLonger(name, t, v);
    }
  }

  lemma {:induction false} RelaxedIsLonger(name: string, t: string, v: string)
    requires ':' !in name
    ensures |RelaxHeader(name + ":" + t + (CRLF + (" b=" + v)))|
          > |TrimRight(RelaxHeader(name + ":" + t + CRLF + " b=" + CRLF), IsLineEnd)|
  {
    RelaxedEnd(name, t);
    RelaxedWhole(name, t, v);
    ValueIsLonger(t, v);
  }

  lemma {:induction false} RelaxedEnd(name: string, t: string)
    requires ':' !in name
    ensures TrimRight(RelaxHeader(name + ":" + t + CRLF + " b=" + CRLF), IsLineEnd)
         == RelaxName(name) + ":" + RelaxedUnsigned(t)
  {
    var v := t + CRLF + " b=";
    RelaxedTrims(name, t);
    EndText(name, t);
    RelaxHeaderLineEnd(name, v);
  }

  lemma {:induction false} EndText(name: string, t: string)
    ensures name + ":" + t + CRLF + " b=" + CRLF == name + [':'] + (t + CRLF + " b=" + CRLF)
    ensures name + ":" + t + CRLF + " b=" == name + [':'] + (t + CRLF + " b=")
  {
  }

  lemma {:induction false} RelaxedWhole(name: string, t: string, v: string)
    requires ':' !in name
    ensures RelaxHeader(name + ":" + t + (CRLF + (" b=" + v)))
         == RelaxName(name) + ":" + RelaxValue(t + CRLF + (" b=" + v)) + CRLF
  {
    var whole := t + CRLF + (" b=" + v);
    assert name + ":" + t + (CRLF + (" b=" + v)) == name + [':'] + whole;
    RelaxCut(name, whole);
  }

  lemma {:induction false} ValueIsLonger(t: string, v: string)
    ensures |RelaxValue(t + CRLF + (" b=" + v))| >= |RelaxedUnsigned(t)|
  {
    RelaxedUnsignedIs(t);
    FieldsAppend(t, CRLF, " b=" + v, IsFws);
    FirstOfB(v);
    JoinLonger(Fields(t, IsFws), Fields(" b=" + v, IsFws), "b=", " ");
  }
}
