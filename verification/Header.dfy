/**
 Reading, writing, cutting and folding header fields
 (middleware/authres/dkim/header.go).
 */
module Header {
  import opened Text
  import opened Strings
  import opened BodyCanonical

  // ----- reading

  /** `textproto.Reader.ReadLine`: the next line without its line end, and what follows it. */
  function ReadLine(s: string): (r: Option<(string, string)>)
    ensures r.Some? ==> |r.value.1| < |s|
  {
    if s == "" then None
    else
      var i := IndexOf(s, '\n');
      if i == |s| then Some((s, "")) else Some((DropCR(s[..i]), s[i + 1..]))
  }

  datatype HeaderResult = Header(h: seq<string>, rest: string) | UnexpectedEOF

  function AddLine(h: seq<string>, l: string): seq<string>
    requires l != ""
  {
    if h != [] && IsWsp(l[0]) then h[..|h| - 1] + [h[|h| - 1] + l + CRLF] else h + [l + CRLF]
  }

  /** `readHeader` on `s`, with the fields `h` already read. */
  function ReadFrom(s: string, h: seq<string>): HeaderResult
    decreases |s|
  {
    match ReadLine(s)
    case None => UnexpectedEOF
    case Some((l, rest)) => if l == "" then Header(h, rest) else ReadFrom(rest, AddLine(h, l))
  }

  function ReadHeader(s: string): HeaderResult {
    ReadFrom(s, [])
  }

  /** The loop of `readHeader`. */
  method ReadHeaderLines(input: string) returns (result: HeaderResult)
    ensures result == ReadHeader(input)
  {
    var h: seq<string> := [];
    var r := input;
    while true
      invariant ReadFrom(r, h) == ReadHeader(input)
      decreases |r|
    {
      var next := ReadLine(r);
      if next.None? {
        return UnexpectedEOF;
      }
      var (l, rest) := next.value;
      r := rest;
      if |l| == 0 {
        break;
      }
      ghost var added := AddLine(h, l);
      if |h| > 0 && (l[0] == ' ' || l[0] == '\t') {
        h := h[|h| - 1 := h[|h| - 1] + l + CRLF];
      } else {
        h := h + [l + CRLF];
      }
      assert h == added;
    }
    return Header(h, r);
  }

  /** The first character of `s`, if any, does not make it a continuation line. */
  predicate StartsField(s: string) {
    s != "" ==> !IsWsp(s[0])
  }

  /** Fields already read only come first in the result. */
  lemma {:induction false} ReadFromPrefix(s: string, p: seq<string>, h: seq<string>)
    requires h != [] || StartsField(s)
    ensures ReadFrom(s, p + h) ==
      match ReadFrom(s, h)
      case UnexpectedEOF => UnexpectedEOF
      case Header(fields, rest) => Header(p + fields, rest)
    decreases |s|
  {
    match ReadLine(s)
    case None =>
    case Some((l, rest)) =>
      if l != "" {
        assert l[0] == s[0];
        assert AddLine(p + h, l) == p + AddLine(h, l);
        ReadFromPrefix(rest, p, AddLine(h, l));
      }
  }

  // ----- the shape of one field

  /** Every LF follows a CR and, except for a last one, is followed by white space. */
  predicate GoodBreaks(x: string, closed: bool) {
    forall i :: 0 <= i < |x| && x[i] == '\n' ==> GoodBreak(x, i, closed)
  }

  predicate GoodBreak(x: string, i: int, closed: bool)
    requires 0 <= i < |x|
  {
    i >= 1 && x[i - 1] == '\r' && if i + 1 < |x| then IsWsp(x[i + 1]) else closed
  }

  /** Complete lines: the first one as it is, the others continuation lines. */
  predicate Closed(x: string) {
    x != "" && !IsLineEnd(x[0]) && x[|x| - 1] == '\n' && GoodBreaks(x, true)
  }

  /** The same without the last line end. */
  predicate Open(x: string) {
    x != "" && !IsLineEnd(x[0]) && GoodBreaks(x, false)
  }

  lemma {:induction false} OpenText(x: string)
    requires x != "" && NoneOf(x, IsLineEnd)
    ensures Open(x)
  {
  }

  lemma {:induction false} OpenAppend(x: string, y: string)
    requires Open(x) && NoneOf(y, IsLineEnd)
    ensures Open(x + y)
  {
    forall i | 0 <= i < |x + y| && (x + y)[i] == '\n' ensures GoodBreak(x + y, i, false) {
      assert GoodBreak(x, i, false);
    }
  }

  lemma {:induction false} OpenFold(x: string, y: string)
    requires Open(x) && y != "" && IsWsp(y[0]) && NoneOf(y, IsLineEnd)
    ensures Open(x + CRLF + y)
  {
    var z := x + CRLF + y;
    forall i | 0 <= i < |z| && z[i] == '\n' ensures GoodBreak(z, i, false) {
      if i < |x| {
        assert GoodBreak(x, i, false);
      }
    }
  }

  lemma {:induction false} OpenClose(x: string)
    requires Open(x)
    ensures Closed(x + CRLF)
  {
    var z := x + CRLF;
    forall i | 0 <= i < |z| && z[i] == '\n' ensures GoodBreak(z, i, true) {
      if i < |x| {
        assert GoodBreak(x, i, false);
      }
    }
  }

  /** Length of the first line of a complete text, without its CRLF. */
  function FirstLineLength(x: string): int {
    IndexOf(x, '\n') - 1
  }

  lemma {:induction false} FirstLine(x: string)
    requires Closed(x)
    ensures var n := FirstLineLength(x);
            && 1 <= n <= |x| - 2 && x[n] == '\r' && x[n + 1] == '\n' && '\n' !in x[..n]
            && (n + 2 < |x| ==> IsWsp(x[n + 2]) && Closed(x[n + 2..]))
  {
    var i := IndexOf(x, '\n');
    assert x[|x| - 1] == '\n' && x[|x| - 1] in x;
    IndexOfFirst(x, '\n');
    assert GoodBreak(x, i, true);
    assert x[..i - 1] <= x[..i];
    var u := x[i + 1..];
    if u != "" {
      forall k | 0 <= k < |u| && u[k] == '\n' ensures GoodBreak(u, k, true) {
        assert GoodBreak(x, i + 1 + k, true);
      }
    }
  }

  /** The line reader returns the first line of a complete text. */
  lemma {:induction false} ReadFirstLine(x: string, m: string)
    requires Closed(x)
    ensures var n := FirstLineLength(x);
            && 1 <= n <= |x| - 2
            && ReadLine(x + m) == Some((x[..n], x[n + 2..] + m))
            && x == x[..n] + CRLF + x[n + 2..]
  {
    FirstLine(x);
    var n := FirstLineLength(x);
    var l, u := x[..n], x[n + 2..];
    assert x == l + CRLF + u;
    assert x + m == (l + "\r") + ("\n" + (u + m));
    ReadTerminated(l, u + m);
  }

  lemma {:induction false} ReadTerminated(l: string, rest: string)
    requires '\n' !in l
    ensures ReadLine((l + "\r") + ("\n" + rest)) == Some((l, rest))
  {
    var a, s := l + "\r", (l + "\r") + ("\n" + rest);
    IndexOfPrefix(a, "\n" + rest, '\n');
    assert s[..|a|] == a && s[|a| + 1..] == rest;
    assert DropCR(a) == l;
  }

  /** Continuation lines are glued to the last field. */
  lemma {:induction false} ReadContinuation(x: string, m: string, f: string)
    requires Closed(x) && IsWsp(x[0])
    ensures ReadFrom(x + m, [f]) == ReadFrom(m, [f + x])
    decreases |x|
  {
    FirstLine(x);
    ReadFirstLine(x, m);
    var n := FirstLineLength(x);
    var l, u := x[..n], x[n + 2..];
    assert AddLine([f], l) == [f + l + CRLF];
    assert f + l + CRLF + u == f + x;
    if u == "" {
      assert u + m == m && f + l + CRLF == f + x;
    } else {
      ReadContinuation(u, m, f + l + CRLF);
    }
  }

  /** A complete field in front of a message is read back as it was written, and the rest is read as before. */
  lemma {:induction false} ReadPrepended(x: string, m: string)
    requires Closed(x) && StartsField(m)
    ensures ReadHeader(x + m) ==
      match ReadHeader(m)
      case UnexpectedEOF => UnexpectedEOF
      case Header(h, rest) => Header([x] + h, rest)
  {
    FirstLine(x);
    ReadFirstLine(x, m);
    var n := FirstLineLength(x);
    var l, u := x[..n], x[n + 2..];
    assert AddLine([], l) == [l + CRLF];
    if u == "" {
      assert u + m == m && l + CRLF == x;
    } else {
      ReadContinuation(u, m, l + CRLF);
    }
    assert ReadHeader(x + m) == ReadFrom(m, [x]);
    assert [x] + [] == [x];
    ReadFromPrefix(m, [x], []);
  }

  // ----- folding

  /** `foldHeaderField`: a break after every 75 characters. */
  function Fold(kv: string): string {
    FoldBody(kv) + CRLF
  }

  function FoldBody(kv: string): string
    decreases |kv|
  {
    if |kv| <= 75 then kv else kv[..75] + CRLF + " " + FoldBody(kv[75..])
  }

  method FoldHeaderField(kv: string) returns (folded: string)
    ensures folded == Fold(kv)
  {
    var buf := kv;
    var first := true;
    var fold := "";
    while |buf| > 0
      invariant first ==> fold == "" && buf == kv
      invariant !first ==> fold + (if buf == "" then "" else CRLF + " " + FoldBody(buf)) == FoldBody(kv)
      decreases |buf|
    {
      var n := if |buf| < 75 then |buf| else 75;
      ghost var was, whole := fold, buf;
      if first {
        first := false;
      } else {
        fold := fold + CRLF + " ";
      }
      fold := fold + buf[..n];
      buf := buf[n..];
      assert FoldBody(whole) == whole[..n] + (if buf == "" then "" else CRLF + " " + FoldBody(buf));
    }
    return fold + CRLF;
  }

  /** What folding inserts can be deleted again, for text without line ends. */
  function Unfold(s: string): string {
    if |s| >= 3 && s[0] == '\r' && s[1] == '\n' && s[2] == ' ' then Unfold(s[3..])
    else if s == "" then ""
    else [s[0]] + Unfold(s[1..])
  }

  lemma {:induction false} UnfoldPrefix(a: string, b: string)
    requires NoneOf(a, IsLineEnd)
    ensures Unfold(a + b) == a + Unfold(b)
  {
    if a == "" {
      assert a + b == b;
    } else {
      var s := a + b;
      assert s[0] == a[0] != '\r' && s[1..] == a[1..] + b;
      UnfoldPrefix(a[1..], b);
      ConcatAssoc([a[0]], a[1..], Unfold(b));
      assert a == [a[0]] + a[1..];
    }
  }

  lemma {:induction false} UnfoldFold(kv: string)
    requires NoneOf(kv, IsLineEnd)
    ensures Unfold(FoldBody(kv)) == kv
    decreases |kv|
  {
    if |kv| <= 75 {
      UnfoldPrefix(kv, "");
      assert kv + "" == kv;
    } else {
      var u := FoldBody(kv[75..]);
      assert FoldBody(kv) == kv[..75] + (CRLF + " " + u);
      UnfoldPrefix(kv[..75], CRLF + " " + u);
      assert (CRLF + " " + u)[3..] == u;
      UnfoldFold(kv[75..]);
    }
  }

  /** All stretches of `s` between line ends are at most `width` long; `used` columns come before `s`. */
  predicate FitsIn(s: string, used: nat, width: nat) {
    if s == "" then used <= width
    else if IsLineEnd(s[0]) then used <= width && FitsIn(s[1..], 0, width)
    else FitsIn(s[1..], used + 1, width)
  }

  lemma {:induction false} FitsText(a: string, b: string, used: nat, width: nat)
    requires NoneOf(a, IsLineEnd)
    ensures FitsIn(a + b, used, width) <==> FitsIn(b, used + |a|, width)
  {
    if a == "" {
      assert a + b == b;
    } else {
      assert (a + b)[1..] == a[1..] + b;
      FitsText(a[1..], b, used + 1, width);
    }
  }

  lemma {:induction false} FitsBreak(t: string, used: nat, width: nat)
    ensures FitsIn(CRLF + t, used, width) <==> used <= width && FitsIn(t, 0, width)
  {
    assert (CRLF + t)[1..] == "\n" + t && ("\n" + t)[1..] == t;
  }

  /** No folded line is longer than 76 characters. */
  lemma {:induction false} FoldFits(kv: string, used: nat)
    requires NoneOf(kv, IsLineEnd) && used <= 1
    ensures FitsIn(Fold(kv), used, 76)
    decreases |kv|
  {
    if |kv| <= 75 {
      FitsText(kv, CRLF, used, 76);
      FitsBreak("", used + |kv|, 76);
      assert CRLF + "" == CRLF;
    } else {
      var u := Fold(kv[75..]);
      assert Fold(kv) == kv[..75] + (CRLF + (" " + u));
      FitsText(kv[..75], CRLF + (" " + u), used, 76);
      FitsBreak(" " + u, used + 75, 76);
      FitsText(" ", u, 0, 76);
      FoldFits(kv[75..], 1);
    }
  }

  /** Each line that folding adds is a continuation line ... */
  lemma {:induction false} FoldShape(x: string, kv: string)
    requires Open(x) && NoneOf(kv, IsLineEnd)
    ensures Open(x + FoldBody(kv))
    decreases |kv|
  {
    if |kv| <= 75 {
      OpenAppend(x, kv);
    } else {
      var a, b := kv[..75], kv[75..];
      OpenAppend(x, a);
      OpenFold(x + a, " ");
      FoldShape(x + a + CRLF + " ", b);
      Glue(x, a, FoldBody(b));
    }
  }

  lemma {:induction false} Glue(x: string, a: string, u: string)
    ensures x + (a + CRLF + " " + u) == x + a + CRLF + " " + u
  {
  }

  /** ... and folding adds nothing but white space. */
  lemma {:induction false} FoldStrip(kv: string)
    ensures StripWhitespace(FoldBody(kv)) == StripWhitespace(kv)
    decreases |kv|
  {
    if |kv| > 75 {
      var a, b := kv[..75], kv[75..];
      FoldStrip(b);
      assert FoldBody(kv) == a + (CRLF + " ") + FoldBody(b) && kv == a + b;
      StripAppend(a + (CRLF + " "), FoldBody(b));
      StripAppend(a, CRLF + " ");
      StripBlank(CRLF + " ");
      StripAppend(a, b);
    }
  }

  // ----- cutting

  /** `parseHeaderField`. */
  function ParseField(s: string): (string, string) {
    var c := Cut(s, ':');
    (TrimSpace(c.before), TrimSpace(c.after))
  }

  function Name(s: string): string {
    ParseField(s).0
  }
}
