/** How the two body canonicalizations relate to themselves and to each other. */
module BodyAlgebra {
  import opened Text
  import opened BodyCanonical

  lemma {:induction false} TrimKeepsFixed(f: string)
    requires Fixed(f, false)
    ensures Fixed(TrimCrlfs(f), false) && Fixed(TrimCrlfs(f) + CRLF, false)
  {
    var t := TrimCrlfs(f);
    TrimIsPrefix(f);
    forall i | 0 <= i < |t| && t[i] == '\n' ensures AfterCR(t, i, false) && AfterCR(t + CRLF, i, false) {
      assert AfterCR(f, i, false);
    }
  }

  lemma {:induction false} TrimTerminated(t: string)
    requires !EndsInCrlf(t)
    ensures TrimCrlfs(t + CRLF) == t
  {
    assert (t + CRLF)[..|t|] == t;
  }

  lemma {:induction false} SimpleIsIdempotent(b: string)
    ensures SimpleBody(SimpleBody(b)) == SimpleBody(b)
  {
    var f := Fix(b, false);
    FixIsFixed(b, false);
    TrimKeepsFixed(f);
    TrimIsPrefix(f);
    FixedIsUnchanged(SimpleBody(b), false);
    TrimTerminated(TrimCrlfs(f));
  }

  lemma {:induction false} RelaxDropsLineEnds(e: string, held: string, wsp: bool)
    requires AllOf(e, IsLineEnd)
    ensures Relax(e, held, wsp) == ""
  {
    if e != "" {
      RelaxDropsLineEnds(e[1..], held + [e[0]], false);
    }
  }

  lemma {:induction false} RelaxIgnoresTrailingLineEnds(t: string, e: string)
    requires AllOf(e, IsLineEnd)
    ensures Relax(t + e, "", false) == Relax(t, "", false)
  {
    RelaxAppend(t, e, "", false);
    RelaxDropsLineEnds(e, HeldAfter(t, ""), WspAfter(t, false));
  }

  lemma {:induction false} TrimmedAreLineEnds(f: string)
    ensures TrimCrlfs(f) <= f && AllOf(f[|TrimCrlfs(f)|..], IsLineEnd)
  {
    TrimIsPrefix(f);
    if EndsInCrlf(f) {
      var d := f[..|f| - 2];
      TrimmedAreLineEnds(d);
      assert f[|TrimCrlfs(f)|..] == d[|TrimCrlfs(d)|..] + CRLF;
    }
  }

  /** Canonicalizing simply first does not change the relaxed form ... */
  lemma {:induction false} RelaxedAbsorbsSimple(b: string)
    ensures RelaxedBody(SimpleBody(b)) == RelaxedBody(b)
  {
    var f := Fix(b, false);
    var t := TrimCrlfs(f);
    FixIsFixed(b, false);
    TrimKeepsFixed(f);
    FixedIsUnchanged(SimpleBody(b), false);
    TrimmedAreLineEnds(f);
    assert f == t + f[|t|..];
    RelaxIgnoresTrailingLineEnds(t, f[|t|..]);
    RelaxIgnoresTrailingLineEnds(t, CRLF);
  }

  /** ... so bodies that are equal under simple are equal under relaxed. */
  lemma {:induction false} SimpleEqualsRefinesRelaxedEquals(a: string, b: string)
    requires SimpleBody(a) == SimpleBody(b)
    ensures RelaxedBody(a) == RelaxedBody(b)
  {
    RelaxedAbsorbsSimple(a);
    RelaxedAbsorbsSimple(b);
  }

  /** The held line ends come out first, unless nothing does. */
  lemma {:induction false} RelaxSkipsHeld(e: string, s: string, held: string)
    requires AllOf(e, IsLineEnd)
    ensures Relax(e + s, held, false) == Relax(s, held + e, false)
  {
    if e == "" {
      assert e + s == s && held + e == held;
    } else {
      assert (e + s)[1..] == e[1..] + s;
      assert held + [e[0]] + e[1..] == held + e;
      RelaxSkipsHeld(e[1..], s, held + [e[0]]);
    }
  }

  /** Relaxed output, followed by line ends, passes through the writer unchanged. */
  lemma {:induction false} RelaxIsStable(s: string, held: string, wsp: bool, e: string)
    requires AllOf(held, IsLineEnd) && AllOf(e, IsLineEnd)
    ensures Relax(Relax(s, held, wsp) + e, "", false) == Relax(s, held, wsp)
  {
    if s == "" {
      assert "" + e == e;
      RelaxDropsLineEnds(e, "", false);
    } else if IsWsp(s[0]) {
      RelaxIsStable(s[1..], held, true, e);
    } else if IsLineEnd(s[0]) {
      RelaxIsStable(s[1..], held + [s[0]], false, e);
    } else {
      var gap, c, o := if wsp then " " else "", s[0], Relax(s[1..], "", false);
      RelaxIsStable(s[1..], "", false, e);
      var tail := gap + ([c] + (o + e));
      assert held + gap + [c] + o + e == held + tail;
      RelaxSkipsHeld(held, tail, "");
      assert "" + held == held;
      assert ([c] + (o + e))[1..] == o + e;
      if wsp {
        assert tail[1..] == [c] + (o + e);
      } else {
        assert tail == [c] + (o + e);
      }
    }
  }

  lemma {:induction false} RelaxKeepsFixed(s: string, held: string, wsp: bool)
    requires Fixed(held + s, false) && AllOf(held, IsLineEnd)
    requires wsp ==> s == "" || s[0] != '\n'
    ensures Fixed(Relax(s, held, wsp), false)
  {
    if s == "" {
    } else if IsWsp(s[0]) {
      FixedDrop(held, s);
      RelaxKeepsFixed(s[1..], held, true);
    } else if IsLineEnd(s[0]) {
      assert held + s == held + [s[0]] + s[1..];
      RelaxKeepsFixed(s[1..], held + [s[0]], false);
    } else {
      FixedDrop(held, s);
      assert "" + s[1..] == s[1..];
      RelaxKeepsFixed(s[1..], "", false);
      FixedParts(held, s);
      FixedJoin(held, (if wsp then " " else "") + [s[0]], Relax(s[1..], "", false));
    }
  }

  /** A character other than a CR may be dropped from fixed text. */
  lemma {:induction false} FixedDrop(a: string, s: string)
    requires s != "" && s[0] != '\r' && Fixed(a + s, false)
    ensures Fixed(a + s[1..], false) && Fixed(s[1..], false)
    ensures |s| > 1 ==> s[1] != '\n'
  {
    forall i | 1 <= i < |s| && s[i] == '\n' ensures i > 1 && s[i - 1] == '\r' {
      assert AfterCR(a + s, |a| + i, false);
    }
    forall i | 0 <= i < |a + s[1..]| && (a + s[1..])[i] == '\n' ensures AfterCR(a + s[1..], i, false) {
      if i < |a| {
        assert AfterCR(a + s, i, false);
      }
    }
  }

  lemma {:induction false} FixedParts(a: string, b: string)
    requires Fixed(a + b, false)
    ensures Fixed(a, false)
  {
    forall i | 0 <= i < |a| && a[i] == '\n' ensures AfterCR(a, i, false) {
      assert AfterCR(a + b, i, false);
    }
  }

  lemma {:induction false} FixedJoin(a: string, m: string, b: string)
    requires Fixed(a, false) && Fixed(b, false) && NoneOf(m, IsLineEnd)
    ensures Fixed(a + m + b, false)
  {
    var s := a + m + b;
    forall i | 0 <= i < |s| && s[i] == '\n' ensures AfterCR(s, i, false) {
      if i < |a| {
        assert AfterCR(a, i, false);
      } else if i >= |a + m| {
        assert AfterCR(b, i - |a + m|, false);
      }
    }
  }

  lemma {:induction false} RelaxedIsIdempotent(b: string)
    ensures RelaxedBody(RelaxedBody(b)) == RelaxedBody(b)
  {
    var f := Fix(b, false);
    var o := Relax(f, "", false);
    FixIsFixed(b, false);
    assert "" + f == f;
    RelaxKeepsFixed(f, "", false);
    if o != "" {
      forall i | 0 <= i < |o + CRLF| && (o + CRLF)[i] == '\n' ensures AfterCR(o + CRLF, i, false) {
        if i < |o| {
          assert AfterCR(o, i, false);
        }
      }
      FixedIsUnchanged(o + CRLF, false);
      RelaxIsStable(f, "", false, CRLF);
    }
  }

  // ----- what the algorithms do to line ends

  function CrlfTimes(n: nat): string {
    if n == 0 then "" else CrlfTimes(n - 1) + CRLF
  }

  lemma {:induction false} TrimTimes(t: string, n: nat)
    requires !EndsInCrlf(t)
    ensures TrimCrlfs(t + CrlfTimes(n)) == t
  {
    if n == 0 {
      assert t + "" == t;
    } else {
      var s := t + CrlfTimes(n - 1);
      ConcatAssoc(t, CrlfTimes(n - 1), CRLF);
      assert (s + CRLF)[..|s|] == s;
      TrimTimes(t, n - 1);
    }
  }

  /** Every LF of `t` follows a CR. */
  predicate LineFeedsFollowCR(t: string) {
    forall i :: 0 <= i < |t| && t[i] == '\n' ==> i > 0 && t[i - 1] == '\r'
  }

  lemma {:induction false} FixedTimes(t: string, n: nat)
    requires LineFeedsFollowCR(t)
    ensures Fixed(t + CrlfTimes(n), false)
  {
    if n == 0 {
      assert t + "" == t;
      forall i | 0 <= i < |t| && t[i] == '\n' ensures AfterCR(t, i, false) {
      }
    } else {
      var s := t + CrlfTimes(n - 1);
      FixedTimes(t, n - 1);
      ConcatAssoc(t, CrlfTimes(n - 1), CRLF);
      forall i | 0 <= i < |s + CRLF| && (s + CRLF)[i] == '\n' ensures AfterCR(s + CRLF, i, false) {
        assert i < |s| ==> AfterCR(s, i, false);
      }
    }
  }

  /** The simple form of every body without bare LF: whatever empty lines end it, exactly one CRLF does. */
  lemma {:induction false} SimpleIs(t: string, n: nat)
    requires LineFeedsFollowCR(t) && !EndsInCrlf(t)
    ensures Canonical(Simple, t + CrlfTimes(n)) == t + "\r\n"
  {
    FixedTimes(t, n);
    FixedIsUnchanged(t + CrlfTimes(n), false);
    TrimTimes(t, n);
  }

  lemma {:induction false} FixedBreaks()
    ensures Fix("\n", false) == CRLF && Fix(CRLF, false) == CRLF
  {
    assert "\n"[1..] == "" && CRLF[1..] == "\n" && Fix("\n", true) == "\n";
  }

  lemma {:induction false} SameFix(a: string, b: string)
    requires a == "" || a[|a| - 1] != '\r'
    ensures Fix(a + "\n" + b, false) == Fix(a + CRLF + b, false)
  {
    FixAppend(a + "\n", b, false);
    FixAppend(a + CRLF, b, false);
    FixAppend(a, "\n", false);
    FixAppend(a, CRLF, false);
    FixedBreaks();
  }

  /** For both algorithms a bare LF is a CRLF. */
  lemma {:induction false} BareLineFeedIsCrlf(alg: Algorithm, a: string, b: string)
    requires a == "" || a[|a| - 1] != '\r'
    ensures Canonical(alg, a + "\n" + b) == Canonical(alg, a + "\r\n" + b)
  {
    SameFix(a, b);
  }
}
