/** The two header canonicalizations of section 3.4 of RFC 6376 (middleware/authres/dkim/canonical.go). */
module HeaderCanonical {
  import opened Text
  import opened Strings
  import opened BodyCanonical

  /** The value part of the relaxed form: words separated by single spaces. */
  function RelaxValue(v: string): string {
    Join(Fields(v, IsFws), " ")
  }

  function RelaxName(k: string): string {
    TrimSpace(ToLower(k))
  }

  function RelaxHeader(s: string): string {
    var c := Cut(s, ':');
    if !c.found then RelaxName(s) + ":" + CRLF
    else RelaxName(c.before) + ":" + RelaxValue(c.after) + CRLF
  }

  /** `CanonicalizeHeader`. */
  function CanonicalHeader(alg: Algorithm, s: string): string {
    match alg
    case Simple => s
    case Relaxed => RelaxHeader(s)
  }

  lemma {:induction false} RelaxCut(a: string, v: string)
    requires ':' !in a
    ensures RelaxHeader(a + [':'] + v) == RelaxName(a) + ":" + RelaxValue(v) + CRLF
  {
    CutAt(a, ':', v);
  }

  lemma {:induction false} LowerPart(a: string, t: string, e: string)
    requires ToLower(a + t + e) == a + t + e
    ensures ToLower(t) == t
  {
    LowerAt(a + t + e);
    LowerAt(t);
    forall i | 0 <= i < |t| ensures LowerChar(t[i]) == t[i] {
      assert (a + t + e)[|a| + i] == t[i];
    }
  }

  lemma {:induction false} LowerKeeps(s: string, c: char)
    requires c !in s && !('a' <= c <= 'z')
    ensures c !in ToLower(s)
  {
    LowerAt(s);
  }

  lemma {:induction false} RelaxNameStable(k: string)
    ensures RelaxName(RelaxName(k)) == RelaxName(k)
  {
    var l := ToLower(k);
    var a, e := TrimSpaceParts(l);
    TrimSpaceIsTrimmed(l);
    LowerTwice(k);
    LowerPart(a, TrimSpace(l), e);
  }

  lemma {:induction false} RelaxNameHasNoColon(k: string)
    requires ':' !in k
    ensures ':' !in RelaxName(k)
  {
    LowerKeeps(k, ':');
    var a, e := TrimSpaceParts(ToLower(k));
  }

  lemma {:induction false} RelaxValueStable(v: string)
    ensures RelaxValue(RelaxValue(v) + CRLF) == RelaxValue(v)
  {
    var words := Fields(v, IsFws);
    var j := Join(words, " ");
    FieldsAreWords(v, IsFws);
    FieldsJoin(words, ' ', IsFws);
    assert j + CRLF + "" == j + CRLF;
    FieldsAppend(j, CRLF, "", IsFws);
    assert Fields("", IsFws) == [] && words + [] == words;
  }

  /** Relaxing a header field twice is relaxing it once. */
  lemma {:induction false} RelaxHeaderIsIdempotent(s: string)
    ensures RelaxHeader(RelaxHeader(s)) == RelaxHeader(s)
  {
    var c := Cut(s, ':');
    IndexOfFirst(s, ':');
    var k := if c.found then c.before else s;
    RelaxNameStable(k);
    RelaxNameHasNoColon(k);
    if c.found {
      RelaxedText(RelaxName(k), RelaxValue(c.after));
      RelaxCut(RelaxName(k), RelaxValue(c.after) + CRLF);
      RelaxValueStable(c.after);
    } else {
      RelaxedText(RelaxName(k), "");
      RelaxCut(RelaxName(k), "" + CRLF);
      FieldsBlank("" + CRLF, IsFws);
      assert RelaxName(k) + ":" + "" == RelaxName(k) + ":";
    }
  }

  lemma {:induction false} RelaxedText(k: string, v: string)
    ensures k + ":" + v + CRLF == k + [':'] + (v + CRLF)
  {
  }

  lemma {:induction false} ValueUnfolds(a: string, m: string, m': string, b: string)
    requires m != "" && m' != "" && AllOf(m, IsFws) && AllOf(m', IsFws)
    ensures RelaxValue(a + m + b) == RelaxValue(a + m' + b)
  {
    FieldsAppend(a, m, b, IsFws);
    FieldsAppend(a, m', b, IsFws);
  }

  /**
   Folding does not show: a white space character in the value may be replaced
   by a CRLF and any non-empty run of white space.
   */
  lemma {:induction false} RelaxHeaderUnfolds(k: string, a: string, w: char, ws: string, b: string)
    requires ':' !in k && IsWsp(w) && ws != "" && AllOf(ws, IsWsp)
    ensures RelaxHeader(k + [':'] + (a + [w] + b)) == RelaxHeader(k + [':'] + (a + (CRLF + ws) + b))
  {
    ValueUnfolds(a, [w], CRLF + ws, b);
    RelaxCut(k, a + [w] + b);
    RelaxCut(k, a + (CRLF + ws) + b);
  }

  lemma {:induction false} ValueLineEnd(v: string)
    ensures RelaxValue(v + CRLF) == RelaxValue(v)
  {
    assert v + CRLF + "" == v + CRLF;
    FieldsAppend(v, CRLF, "", IsFws);
    assert Fields("", IsFws) == [] && Fields(v, IsFws) + [] == Fields(v, IsFws);
  }

  /** A line end after the value does not show either. */
  lemma {:induction false} RelaxHeaderLineEnd(k: string, v: string)
    requires ':' !in k
    ensures RelaxHeader(k + [':'] + (v + CRLF)) == RelaxHeader(k + [':'] + v)
  {
    ValueLineEnd(v);
    RelaxCut(k, v + CRLF);
    RelaxCut(k, v);
  }

  lemma {:induction false} CanonicalNonEmpty(alg: Algorithm, s: string)
    requires s != ""
    ensures CanonicalHeader(alg, s) != ""
  {
  }
}
