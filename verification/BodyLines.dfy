/**
 The relaxed body algorithm read line by line, as section 3.4.4 of RFC 6376
 words it, and exactly which bodies the relaxed writer treats that way.

 The writer takes every CR for a line end, also one that no LF follows.  The
 two readings therefore differ on some bodies with lone CRs;
 `RelaxedIsLineWiseExactly` says on which.
 */
module BodyLines {
  import opened Text
  import opened BodyCanonical

  // ----- the definition of the standard

  predicate StartsCrlf(s: string) {
    |s| >= 2 && s[0] == '\r' && s[1] == '\n'
  }

  /** Length of the first line of `s`, without its CRLF. */
  function LineLength(s: string): (n: nat)
    ensures n <= |s| && (n < |s| ==> StartsCrlf(s[n..]))
  {
    if s == "" || StartsCrlf(s) then 0 else 1 + LineLength(s[1..])
  }

  /** The lines of `s`; what follows the last CRLF is a line too. */
  function Lines(s: string): seq<string>
    decreases |s|
  {
    var n := LineLength(s);
    if n == |s| then [s] else [s[..n]] + Lines(s[n + 2..])
  }

  /** Reduces each run of white space to a single SP. */
  function Collapse(l: string): string {
    if l == "" then ""
    else if !IsWsp(l[0]) then [l[0]] + Collapse(l[1..])
    else if |l| > 1 && IsWsp(l[1]) then Collapse(l[1..])
    else " " + Collapse(l[1..])
  }

  function TrimWsp(l: string): string {
    if l != "" && IsWsp(l[|l| - 1]) then TrimWsp(l[..|l| - 1]) else l
  }

  function RelaxLine(l: string): string {
    TrimWsp(Collapse(l))
  }

  function RelaxLines(ls: seq<string>): seq<string> {
    if ls == [] then [] else [RelaxLine(ls[0])] + RelaxLines(ls[1..])
  }

  function DropEmptyTail(ls: seq<string>): seq<string> {
    if ls == [] then []
    else
      var rest := DropEmptyTail(ls[1..]);
      if rest == [] && ls[0] == "" then [] else [ls[0]] + rest
  }

  function Terminate(ls: seq<string>): string {
    if ls == [] then "" else ls[0] + CRLF + Terminate(ls[1..])
  }

  function RelaxedByLines(body: string): string {
    Terminate(DropEmptyTail(RelaxLines(Lines(Fix(body, false)))))
  }

  // ----- the same, in one pass

  /** `Relax` with only CRLF as a line end: a lone CR is an ordinary character. */
  function Pass(s: string, held: string, wsp: bool): string
    decreases |s|
  {
    if s == "" then ""
    else if StartsCrlf(s) then Pass(s[2..], held + CRLF, false)
    else if IsWsp(s[0]) then Pass(s[1..], held, true)
    else held + (if wsp then " " else "") + [s[0]] + Pass(s[1..], "", false)
  }

  /** Relaxed lines with their line ends held until a further non-empty line. */
  function JoinHeld(ls: seq<string>, held: string): string {
    if ls == [] then ""
    else if ls[0] == "" then JoinHeld(ls[1..], held + CRLF)
    else held + ls[0] + JoinHeld(ls[1..], CRLF)
  }

  lemma {:induction false} JoinHeldTerminates(ls: seq<string>, held: string)
    ensures var kept := DropEmptyTail(ls);
            if kept == [] then JoinHeld(ls, held) == ""
            else JoinHeld(ls, held) != "" && JoinHeld(ls, held) + CRLF == held + Terminate(kept)
  {
    if ls != [] {
      var kept := DropEmptyTail(ls[1..]);
      if ls[0] == "" {
        JoinHeldTerminates(ls[1..], held + CRLF);
        if kept != [] {
          assert ([""] + kept)[1..] == kept;
          assert Terminate([""] + kept) == CRLF + Terminate(kept);
        }
      } else {
        JoinHeldTerminates(ls[1..], CRLF);
        assert ([ls[0]] + kept)[1..] == kept;
        var tail := JoinHeld(ls[1..], CRLF);
        assert tail + CRLF == CRLF + Terminate(kept);
        assert held + ls[0] + tail + CRLF == held + (ls[0] + (tail + CRLF));
      }
    }
  }

  lemma {:induction false} TrimCons(c: char, l: string)
    ensures !IsWsp(c) || TrimWsp(l) != "" ==> TrimWsp([c] + l) == [c] + TrimWsp(l)
    ensures IsWsp(c) && TrimWsp(l) == "" ==> TrimWsp([c] + l) == ""
  {
    if l != "" && IsWsp(l[|l| - 1]) {
      TrimCons(c, l[..|l| - 1]);
      assert ([c] + l)[..|l|] == [c] + l[..|l| - 1];
    } else if l == "" {
      assert [c] + l == [c];
      assert [c][..0] == "";
    }
  }

  /** `RelaxLine` of `l` with one SP in front of it when `wsp`. */
  function RelaxAfter(l: string, wsp: bool): string {
    RelaxLine(if wsp then " " + l else l)
  }

  lemma {:induction false} RelaxAfterStep(l: string, wsp: bool)
    requires l != ""
    ensures IsWsp(l[0]) ==> RelaxAfter(l, wsp) == RelaxAfter(l[1..], true)
    ensures !IsWsp(l[0]) ==> RelaxAfter(l, wsp) == (if wsp then " " else "") + [l[0]] + RelaxAfter(l[1..], false)
  {
    var rest := l[1..];
    assert (" " + l)[1..] == l && (" " + rest)[1..] == rest;
    if !IsWsp(l[0]) {
      TrimCons(l[0], Collapse(rest));
      TrimCons(' ', Collapse(l));
      assert " " + Collapse(l) == [' '] + Collapse(l);
    }
  }

  lemma {:induction false} NoLine(t: string, held: string, wsp: bool)
    requires t == "" || StartsCrlf(t)
    ensures Pass(t, held, wsp) == Pass(t, held, false) && RelaxAfter("", wsp) == ""
  {
    assert " " + "" == " " && " "[1..] == " "[..0] == "";
  }

  lemma {:induction false} LineTail(l: string, t: string)
    requires l != "" && LineLength(l + t) == |l|
    ensures l + t == [l[0]] + (l[1..] + t) && !StartsCrlf(l + t) && LineLength(l[1..] + t) == |l[1..]|
  {
    assert (l + t)[1..] == l[1..] + t;
  }

  lemma {:induction false} PassBlank(c: char, rest: string, held: string, wsp: bool)
    requires IsWsp(c)
    ensures Pass([c] + rest, held, wsp) == Pass(rest, held, true)
  {
    assert ([c] + rest)[1..] == rest;
  }

  /** One line through the one-pass form; `t` is empty or starts with a CRLF. */
  lemma {:induction false} PassLine(l: string, t: string, held: string, wsp: bool)
    requires LineLength(l + t) == |l|
    ensures var r := RelaxAfter(l, wsp);
            Pass(l + t, held, wsp) == if r == "" then Pass(t, held, false) else held + r + Pass(t, "", false)
  {
    if l == "" {
      assert l + t == t;
      NoLine(t, held, wsp);
    } else {
      var rest := l[1..];
      LineTail(l, t);
      RelaxAfterStep(l, wsp);
      if IsWsp(l[0]) {
        PassLine(rest, t, held, true);
        PassBlank(l[0], rest + t, held, wsp);
      } else {
        PassLine(rest, t, "", false);
        var lead, r, p := (if wsp then " " else "") + [l[0]], RelaxAfter(rest, false), Pass(t, "", false);
        FromNothing(r, p);
        PassVisible(l[0], rest + t, held, wsp, r + p);
        Regroup(held, lead, r, p);
      }
    }
  }

  lemma {:induction false} FromNothing(r: string, p: string)
    ensures "" + r + p == r + p && (r == "" ==> r + p == p)
  {
  }

  /** A character that the one-pass form writes, with what it held back before. */
  lemma {:induction false} PassVisible(c: char, rest: string, held: string, wsp: bool, out: string)
    requires !IsWsp(c) && !StartsCrlf([c] + rest) && Pass(rest, "", false) == out
    ensures Pass([c] + rest, held, wsp) == held + ((if wsp then " " else "") + [c]) + out
  {
    assert ([c] + rest)[1..] == rest;
    assert held + ((if wsp then " " else "") + [c]) == held + (if wsp then " " else "") + [c];
  }

  lemma {:induction false} Regroup(a: string, b: string, c: string, d: string)
    ensures a + b + (c + d) == a + (b + c) + d
  {
  }

  lemma {:induction false} PassIsLineWise(s: string, held: string)
    ensures Pass(s, held, false) == JoinHeld(RelaxLines(Lines(s)), held)
    decreases |s|
  {
    var n := LineLength(s);
    var l, t := s[..n], s[n..];
    assert l + t == s;
    PassLine(l, t, held, false);
    assert RelaxAfter(l, false) == RelaxLine(l);
    if t == "" {
      OnlyLine(l, held);
      assert n == |s| && l == s;
    } else {
      var u := s[n + 2..];
      PassAtCrlf(t, u, held);
      PassIsLineWise(u, held + CRLF);
      PassIsLineWise(u, CRLF);
      FirstOfLines(l, Lines(u), held);
    }
  }

  lemma {:induction false} PassAtCrlf(t: string, u: string, held: string)
    requires StartsCrlf(t) && t[2..] == u
    ensures Pass(t, held, false) == Pass(u, held + CRLF, false) && Pass(t, "", false) == Pass(u, CRLF, false)
  {
    assert "" + CRLF == CRLF;
  }

  lemma {:induction false} OnlyLine(l: string, held: string)
    ensures JoinHeld(RelaxLines([l]), held) == if RelaxLine(l) == "" then "" else held + RelaxLine(l) + ""
  {
    assert [l][1..] == [] && RelaxLines([]) == [] && [RelaxLine(l)][1..] == [];
  }

  lemma {:induction false} FirstOfLines(l: string, ls: seq<string>, held: string)
    ensures JoinHeld(RelaxLines([l] + ls), held)
         == if RelaxLine(l) == "" then JoinHeld(RelaxLines(ls), held + CRLF)
            else held + RelaxLine(l) + JoinHeld(RelaxLines(ls), CRLF)
  {
    assert ([l] + ls)[1..] == ls;
    assert ([RelaxLine(l)] + RelaxLines(ls))[1..] == RelaxLines(ls);
  }

  /** The standard's wording and the one-pass form agree on every body. */
  lemma {:induction false} LineWiseIsOnePass(body: string)
    ensures var o := Pass(Fix(body, false), "", false);
            RelaxedByLines(body) == if o == "" then "" else o + CRLF
  {
    var f := Fix(body, false);
    PassIsLineWise(f, "");
    JoinHeldTerminates(RelaxLines(Lines(f)), "");
  }

  // ----- where the writer agrees

  predicate IsVisible(c: char) {
    !IsWsp(c) && !IsLineEnd(c)
  }

  ghost predicate HasVisible(s: string) {
    exists i :: 0 <= i < |s| && IsVisible(s[i])
  }

  /** A CR at `i` that no LF follows. */
  predicate LoneCR(s: string, i: int) {
    0 <= i < |s| && s[i] == '\r' && !(i + 1 < |s| && s[i + 1] == '\n')
  }

  /**
   No lone CR of `s` stands right after white space, and each has a visible
   character behind it; `wsp` tells whether white space precedes `s`.
   */
  ghost predicate Tame(s: string, wsp: bool) {
    forall i :: LoneCR(s, i) ==> !AfterWsp(s, i, wsp) && HasVisible(s[i..])
  }

  predicate AfterWsp(s: string, i: int, wsp: bool)
    requires 0 <= i < |s|
  {
    if i == 0 then wsp else IsWsp(s[i - 1])
  }

  lemma {:induction false} VisibleStep(s: string)
    requires s != ""
    ensures HasVisible(s) <==> IsVisible(s[0]) || HasVisible(s[1..])
  {
    forall i | 0 < i < |s| ensures s[1..][i - 1] == s[i] {
    }
    if HasVisible(s[1..]) {
      var i :| 0 <= i < |s[1..]| && IsVisible(s[1..][i]);
      assert IsVisible(s[i + 1]);
    }
  }

  lemma {:induction false} TameStep(s: string, wsp: bool)
    requires s != ""
    ensures Tame(s, wsp) <==> (LoneCR(s, 0) ==> !wsp && HasVisible(s[1..])) && Tame(s[1..], IsWsp(s[0]))
  {
    var rest, w := s[1..], IsWsp(s[0]);
    VisibleStep(s);
    assert s[0..] == s;
    forall i | 0 <= i < |rest|
      ensures LoneCR(rest, i) == LoneCR(s, i + 1) && AfterWsp(rest, i, w) == AfterWsp(s, i + 1, wsp)
              && rest[i..] == s[i + 1..]
    {
    }
    if Tame(s, wsp) {
      assert LoneCR(s, 0) ==> !AfterWsp(s, 0, wsp) && HasVisible(s[0..]);
      forall i | LoneCR(rest, i) ensures !AfterWsp(rest, i, w) && HasVisible(rest[i..]) {
        assert LoneCR(s, i + 1);
      }
    } else {
      var i :| LoneCR(s, i) && !(!AfterWsp(s, i, wsp) && HasVisible(s[i..]));
      if i > 0 {
        assert LoneCR(rest, i - 1);
      }
    }
  }

  lemma {:induction false} NewLineTame(rest: string)
    ensures Tame("\n" + rest, false) <==> Tame(rest, false)
    ensures HasVisible("\n" + rest) <==> HasVisible(rest)
  {
    TameStep("\n" + rest, false);
    VisibleStep("\n" + rest);
    assert ("\n" + rest)[1..] == rest;
  }

  /** The condition may be read off the body before or after its line ends are fixed. */
  lemma {:induction false} TameFix(s: string, cr: bool, wsp: bool)
    requires cr ==> !wsp
    ensures Tame(Fix(s, cr), wsp) <==> Tame(s, wsp)
    ensures HasVisible(Fix(s, cr)) <==> HasVisible(s)
  {
    if s != "" {
      var f, rest := Fix(s, cr), Fix(s[1..], s[0] == '\r');
      TameFix(s[1..], s[0] == '\r', IsWsp(s[0]));
      FixEnd(s[1..], s[0] == '\r');
      TameStep(s, wsp);
      VisibleStep(s);
      TameStep(f, wsp);
      VisibleStep(f);
      if s[0] == '\n' && !cr {
        assert f[1..] == "\n" + rest;
        NewLineTame(rest);
      } else {
        assert f[1..] == rest;
        FixFirst(s[1..], s[0] == '\r');
      }
    }
  }

  /** After a CR the fixer leaves the next byte alone. */
  lemma {:induction false} FixFirst(s: string, cr: bool)
    ensures s == "" <==> Fix(s, cr) == ""
    ensures cr && s != "" ==> Fix(s, cr)[0] == s[0]
  {
  }

  /** Nothing is emitted without a visible character, and with one the held line ends come first. */
  lemma {:induction false} RelaxNeedsVisible(s: string, held: string, wsp: bool)
    ensures if HasVisible(s) then held <= Relax(s, held, wsp) else Relax(s, held, wsp) == ""
  {
    if s != "" {
      VisibleStep(s);
      if IsWsp(s[0]) {
        RelaxNeedsVisible(s[1..], held, true);
      } else if IsLineEnd(s[0]) {
        RelaxNeedsVisible(s[1..], held + [s[0]], false);
      }
    }
  }

  lemma {:induction false} FixedTail(s: string, k: nat)
    requires Fixed(s, false) && 0 < k <= |s|
    requires k < |s| && s[k] == '\n' ==> s[k - 1] != '\r'
    ensures Fixed(s[k..], false)
  {
    forall i | 0 <= i < |s[k..]| && s[k..][i] == '\n' ensures AfterCR(s[k..], i, false) {
      assert AfterCR(s, k + i, false);
    }
  }

  /**
   The writer against the one-pass form, the writer lagging behind by the lone
   CRs `lag` that it still holds.
   */
  ghost predicate InStep(s: string, lag: string, held: string, wsp: bool) {
    Relax(s, lag + held, wsp) == lag + Pass(s, held, wsp)
  }

  lemma {:induction false} InStepIfTame(s: string, lag: string, held: string, wsp: bool)
    requires Fixed(s, false)
    requires lag != "" ==> HasVisible(s)
    ensures InStep(s, lag, held, wsp) <==> Tame(s, wsp)
    decreases |s|
  {
    if s != "" {
      var rest := s[1..];
      VisibleStep(s);
      TameStep(s, wsp);
      if StartsCrlf(s) {
        CrlfInStep(s, lag, held, wsp);
        FixedTail(s, 2);
        InStepIfTame(s[2..], lag, held + CRLF, false);
      } else {
        FixedTail(s, 1);
        if IsWsp(s[0]) {
          InStepIfTame(rest, lag, held, true);
        } else if s[0] != '\r' {
          VisibleInStep(s, lag, held, wsp);
          InStepIfTame(rest, "", "", false);
        } else {
          LoneCRInStep(s, lag, held, wsp);
          if !wsp && HasVisible(rest) {
            InStepIfTame(rest, lag + held + "\r", "", false);
          }
        }
      }
    }
  }

  lemma {:induction false} CrlfInStep(s: string, lag: string, held: string, wsp: bool)
    requires StartsCrlf(s)
    ensures InStep(s, lag, held, wsp) <==> InStep(s[2..], lag, held + CRLF, false)
    ensures Tame(s, wsp) <==> Tame(s[2..], false)
    ensures HasVisible(s) <==> HasVisible(s[2..])
  {
    TameStep(s, wsp);
    TameStep(s[1..], false);
    VisibleStep(s);
    VisibleStep(s[1..]);
    assert s[1..][1..] == s[2..];
    assert lag + held + ['\r'] + ['\n'] == lag + (held + CRLF);
    assert Relax(s, lag + held, wsp) == Relax(s[1..], lag + held + ['\r'], false);
  }

  lemma {:induction false} VisibleInStep(s: string, lag: string, held: string, wsp: bool)
    requires s != "" && IsVisible(s[0])
    ensures InStep(s, lag, held, wsp) <==> InStep(s[1..], "", "", false)
  {
    var gap, r, p := if wsp then " " else "", Relax(s[1..], "", false), Pass(s[1..], "", false);
    assert "" + "" == "" && "" + p == p;
    LagFirst(lag, held, gap, [s[0]], p);
    assert lag + Pass(s, held, wsp) == lag + (held + gap + [s[0]] + p);
    Cancel(r, p, lag + held + gap + [s[0]]);
  }

  lemma {:induction false} LagFirst(lag: string, held: string, gap: string, c: string, p: string)
    ensures lag + (held + gap + c + p) == lag + held + gap + c + p
  {
  }

  /** A lone CR: the one-pass form emits it, the writer holds it and forgets the white space before it. */
  lemma {:induction false} LoneCRInStep(s: string, lag: string, held: string, wsp: bool)
    requires LoneCR(s, 0)
    ensures InStep(s, lag, held, wsp) <==> !wsp && HasVisible(s[1..]) && InStep(s[1..], lag + held + "\r", "", false)
  {
    var rest, lead := s[1..], lag + held;
    var gap, r, p := if wsp then " " else "", Relax(rest, lead + "\r", false), Pass(rest, "", false);
    RelaxNeedsVisible(rest, lead + "\r", false);
    calc {
      lag + Pass(s, held, wsp);
      lag + (held + gap + "\r" + p);
      lead + gap + "\r" + p;
    }
    assert lead + "\r" + "" == lead + "\r";
    if wsp {
      assert (lead + gap + "\r" + p)[|lead|] == ' ';
      assert HasVisible(rest) ==> r[|lead|] == (lead + "\r")[|lead|] == '\r';
    } else {
      assert gap == "" && lead + "" == lead;
    }
  }

  /** The relaxed writer implements the line-by-line algorithm exactly on the bodies whose lone CRs are tame. */
  lemma {:induction false} RelaxedIsLineWiseExactly(body: string)
    ensures RelaxedBody(body) == RelaxedByLines(body) <==> Tame(body, false)
  {
    var f := Fix(body, false);
    FixIsFixed(body, false);
    LineWiseIsOnePass(body);
    InStepIfTame(f, "", "", false);
    assert "" + "" == "" && "" + Pass(f, "", false) == Pass(f, "", false);
    TameFix(body, false, false);
    Cancel(Relax(f, "", false), Pass(f, "", false), CRLF);
  }

  /** In particular on every body without lone CRs, however it is cut into writes. */
  lemma {:induction false} StreamedRelaxedIsLineWise(chunks: seq<string>)
    requires forall i :: !LoneCR(Concat(chunks), i)
    ensures Close(WriteAll(Start(Relaxed), chunks)) == RelaxedByLines(Concat(chunks))
  {
    StreamingIsWholeBody(Relaxed, chunks);
    RelaxedIsLineWiseExactly(Concat(chunks));
  }

  /** White space, a lone CR and a visible character: the writer drops the white space, the standard keeps it. */
  lemma {:induction false} LoneCRDiffers()
    ensures RelaxedBody("a \rb") != RelaxedByLines("a \rb")
  {
    assert LoneCR("a \rb", 2);
    RelaxedIsLineWiseExactly("a \rb");
  }
}
