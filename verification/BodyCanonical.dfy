/**
 The two body canonicalization algorithms of section 3.4 of RFC 6376, as the
 streaming writers of middleware/authres/dkim/canonical.go.

 `Fix`, `SimpleBody` and `RelaxedBody` say what a whole body becomes.  `Write`
 and `Close` on `BodyState` are what the two writers do, one chunk at a time;
 the classes below them are the writers, and `StreamingIsWholeBody` connects
 the two for every way of cutting a body into chunks.
 */
module BodyCanonical {
  import opened Text

  // ----- CRLF fixing

  /** What `crlfFixer` emits for `s`, when `cr` tells whether the byte before `s` was a CR. */
  function Fix(s: string, cr: bool): string {
    if s == "" then ""
    else FixChar(s[0], cr) + Fix(s[1..], s[0] == '\r')
  }

  function FixChar(c: char, cr: bool): string {
    if c == '\n' && !cr then CRLF else [c]
  }

  /** The fixer's state after `s`. */
  function EndsInCR(s: string, cr: bool): bool {
    if s == "" then cr else s[|s| - 1] == '\r'
  }

  lemma {:induction false} FixAppend(a: string, b: string, cr: bool)
    ensures Fix(a + b, cr) == Fix(a, cr) + Fix(b, EndsInCR(a, cr))
  {
    if a == "" {
      assert a + b == b;
    } else {
      var cr' := a[0] == '\r';
      FixAppend(a[1..], b, cr');
      calc {
        Fix(a + b, cr);
        { assert (a + b)[0] == a[0] && (a + b)[1..] == a[1..] + b; }
        FixChar(a[0], cr) + Fix(a[1..] + b, cr');
        FixChar(a[0], cr) + (Fix(a[1..], cr') + Fix(b, EndsInCR(a, cr)));
        { ConcatAssoc(FixChar(a[0], cr), Fix(a[1..], cr'), Fix(b, EndsInCR(a, cr))); }
        Fix(a, cr) + Fix(b, EndsInCR(a, cr));
      }
    }
  }

  lemma {:induction false} FixEnd(s: string, cr: bool)
    ensures s != "" ==> Fix(s, cr) != "" && Fix(s, cr)[|Fix(s, cr)| - 1] == s[|s| - 1]
    ensures s != "" && (s[0] != '\n' || !cr) ==> Fix(s, cr)[0] != '\n'
  {
    if |s| > 1 {
      FixEnd(s[1..], s[0] == '\r');
    }
  }

  /** Every LF of `s` follows a CR; `cr` tells whether a CR precedes `s`. */
  predicate Fixed(s: string, cr: bool) {
    forall i :: 0 <= i < |s| && s[i] == '\n' ==> AfterCR(s, i, cr)
  }

  predicate AfterCR(s: string, i: int, cr: bool)
    requires 0 <= i < |s|
  {
    if i == 0 then cr else s[i - 1] == '\r'
  }

  lemma {:induction false} FixIsFixed(s: string, cr: bool)
    ensures Fixed(Fix(s, cr), cr)
  {
    if s != "" {
      FixIsFixed(s[1..], s[0] == '\r');
    }
  }

  lemma {:induction false} FixedIsUnchanged(s: string, cr: bool)
    requires Fixed(s, cr)
    ensures Fix(s, cr) == s
  {
    if s != "" {
      assert s[0] == '\n' ==> AfterCR(s, 0, cr);
      forall i | 0 <= i < |s[1..]| && s[1..][i] == '\n' ensures AfterCR(s[1..], i, s[0] == '\r') {
        assert AfterCR(s, i + 1, cr);
      }
      FixedIsUnchanged(s[1..], s[0] == '\r');
    }
  }

  // ----- simple

  predicate EndsInCrlf(s: string) {
    |s| >= 2 && s[|s| - 2] == '\r' && s[|s| - 1] == '\n'
  }

  function TrimCrlfs(s: string): string {
    if EndsInCrlf(s) then TrimCrlfs(s[..|s| - 2]) else s
  }

  function DropCR(s: string): string {
    if s != "" && s[|s| - 1] == '\r' then s[..|s| - 1] else s
  }

  /** Section 3.4.3 of RFC 6376: all trailing empty lines become one CRLF. */
  function SimpleBody(b: string): string {
    TrimCrlfs(Fix(b, false)) + CRLF
  }

  /** The part of the fixed text `s` that the simple writer passes on. */
  function Passed(s: string): (p: string)
    ensures p <= s
  {
    TrimIsPrefix(DropCR(s));
    TrimCrlfs(DropCR(s))
  }

  lemma {:induction false} TrimIsPrefix(s: string)
    ensures TrimCrlfs(s) <= s && !EndsInCrlf(TrimCrlfs(s))
  {
    if EndsInCrlf(s) {
      TrimIsPrefix(s[..|s| - 2]);
    }
  }

  lemma {:induction false} TrimAppend(x: string, y: string)
    requires !EndsInCrlf(x)
    requires y != "" ==> y[0] != '\n'
    ensures TrimCrlfs(x + y) == x + TrimCrlfs(y)
  {
    if y == "" {
      assert x + y == x;
    } else if |y| == 1 {
      assert (x + y)[|x + y| - 1] == y[0];
    } else if EndsInCrlf(y) {
      assert (x + y)[..|x + y| - 2] == x + y[..|y| - 2];
      TrimAppend(x, y[..|y| - 2]);
    }
  }

  lemma {:induction false} PassedAppend(x: string, y: string)
    requires !EndsInCrlf(x)
    requires y == "" ==> !EndsInCR(x, false)
    requires y != "" ==> y[0] != '\n'
    ensures Passed(x + y) == x + Passed(y)
  {
    if y == "" {
      assert x + y == x;
      assert DropCR(x) == x;
    } else {
      assert DropCR(x + y) == x + DropCR(y);
      TrimAppend(x, DropCR(y));
    }
  }

  // ----- relaxed

  /**
   What the relaxed writer emits for the fixed text `s`, when the line ends
   `held` and, with `wsp`, some white space are waiting for a further character.
   */
  function Relax(s: string, held: string, wsp: bool): string {
    if s == "" then ""
    else if IsWsp(s[0]) then Relax(s[1..], held, true)
    else if IsLineEnd(s[0]) then Relax(s[1..], held + [s[0]], false)
    else held + (if wsp then " " else "") + [s[0]] + Relax(s[1..], "", false)
  }

  function HeldAfter(s: string, held: string): string {
    if s == "" then held
    else if IsWsp(s[0]) then HeldAfter(s[1..], held)
    else if IsLineEnd(s[0]) then HeldAfter(s[1..], held + [s[0]])
    else HeldAfter(s[1..], "")
  }

  function WspAfter(s: string, wsp: bool): bool {
    if s == "" then wsp else WspAfter(s[1..], IsWsp(s[0]))
  }

  lemma {:induction false} RelaxAppend(a: string, b: string, held: string, wsp: bool)
    ensures Relax(a + b, held, wsp) == Relax(a, held, wsp) + Relax(b, HeldAfter(a, held), WspAfter(a, wsp))
    ensures HeldAfter(a + b, held) == HeldAfter(b, HeldAfter(a, held))
    ensures WspAfter(a + b, wsp) == WspAfter(b, WspAfter(a, wsp))
  {
    if a == "" {
      assert a + b == b;
    } else {
      assert (a + b)[1..] == a[1..] + b;
      if IsWsp(a[0]) {
        RelaxAppend(a[1..], b, held, true);
      } else if IsLineEnd(a[0]) {
        RelaxAppend(a[1..], b, held + [a[0]], false);
      } else {
        RelaxAppend(a[1..], b, "", false);
      }
    }
  }

  function RelaxedBody(b: string): string {
    var o := Relax(Fix(b, false), "", false);
    if o == "" then "" else o + CRLF
  }

  // ----- the writers, one chunk at a time

  datatype Algorithm = Simple | Relaxed

  /** A writer's fields, and `out`, everything it has written so far. */
  datatype BodyState =
    | SimpleState(crlfBuf: string, cr: bool, out: string)
    | RelaxedState(crlfBuf: string, wsp: bool, written: bool, cr: bool, out: string)

  function Start(alg: Algorithm): BodyState {
    match alg
    case Simple => SimpleState("", false, "")
    case Relaxed => RelaxedState("", false, false, false, "")
  }

  function Write(st: BodyState, b: string): BodyState {
    match st
    case SimpleState(crlfBuf, cr, out) =>
      var f := Fix(crlfBuf + b, cr);
      SimpleState(f[|Passed(f)|..], EndsInCR(crlfBuf + b, cr), out + Passed(f))
    case RelaxedState(crlfBuf, wsp, written, cr, out) =>
      var f := Fix(b, cr);
      var canonical := Relax(f, crlfBuf, wsp);
      RelaxedState(HeldAfter(f, crlfBuf), WspAfter(f, wsp), written || canonical != "",
                   EndsInCR(b, cr), out + canonical)
  }

  /** Everything written once the writer has been closed. */
  function Close(st: BodyState): string {
    match st
    case SimpleState(crlfBuf, cr, out) => out + (if EndsInCR(crlfBuf, false) then crlfBuf else "") + CRLF
    case RelaxedState(_, _, written, _, out) => if written then out + CRLF else out
  }

  function WriteAll(st: BodyState, chunks: seq<string>): BodyState {
    if chunks == [] then st
    else Write(WriteAll(st, chunks[..|chunks| - 1]), chunks[|chunks| - 1])
  }

  /** The bytes that reach the hash when the whole body is written at once. */
  function Canonical(alg: Algorithm, body: string): string {
    match alg
    case Simple => SimpleBody(body)
    case Relaxed => RelaxedBody(body)
  }

  /** What a writer's fields say about all the bytes `fed` to it so far. */
  ghost predicate Tracks(st: BodyState, alg: Algorithm, fed: string) {
    match alg
    case Simple =>
      && st.SimpleState?
      && st.cr == EndsInCR(fed, false)
      && st.out == Passed(Fix(fed, false))
      && st.crlfBuf == Held(Fix(fed, false))
    case Relaxed =>
      && st.RelaxedState?
      && st.cr == EndsInCR(fed, false)
      && st.out == Relax(Fix(fed, false), "", false)
      && st.crlfBuf == HeldAfter(Fix(fed, false), "")
      && st.wsp == WspAfter(Fix(fed, false), false)
      && st.written == (st.out != "")
  }

  /** The text held back by the simple writer: a run of CRLFs, possibly ending in a lone CR. */
  function Held(s: string): string {
    s[|Passed(s)|..]
  }

  lemma {:induction false} TrimmedShape(s: string)
    ensures TrimCrlfs(s) <= s
    ensures var t := s[|TrimCrlfs(s)|..];
            && (t != "" ==> t[0] == '\r')
            && Fixed(t, false)
            && (t != "" ==> t[|t| - 1] == '\n')
  {
    if EndsInCrlf(s) {
      var d := s[..|s| - 2];
      TrimmedShape(d);
      assert s[|TrimCrlfs(s)|..] == d[|TrimCrlfs(d)|..] + CRLF;
    }
  }

  lemma {:induction false} FixedSnocCR(t: string)
    requires Fixed(t, false)
    ensures Fixed(t + "\r", false)
  {
    forall i | 0 <= i < |t + "\r"| && (t + "\r")[i] == '\n' ensures AfterCR(t + "\r", i, false) {
      assert AfterCR(t, i, false);
    }
  }

  lemma {:induction false} HeldShape(s: string)
    ensures s == Passed(s) + Held(s)
    ensures Held(s) != "" ==> Held(s)[0] == '\r'
    ensures Fixed(Held(s), false)
    ensures EndsInCR(Held(s), false) == EndsInCR(s, false)
  {
    var d := DropCR(s);
    TrimmedShape(d);
    var t := d[|TrimCrlfs(d)|..];
    if EndsInCR(s, false) {
      FixedSnocCR(t);
      assert Held(s) == t + "\r";
    } else {
      assert Held(s) == t;
    }
  }

  lemma {:induction false} CloseShape(s: string)
    ensures Passed(s) + (if EndsInCR(s, false) then Held(s) else "") == TrimCrlfs(s)
  {
    HeldShape(s);
    if EndsInCR(s, false) {
      assert !EndsInCrlf(s);
    }
  }

  /**
   Feeding the held-back bytes through the stateful fixer a second time changes
   nothing: they are already fixed, start with a CR and leave the fixer in the
   state it was in.
   */
  lemma {:induction false} RefeedIsHarmless(f: string, cr: bool, b: string)
    requires cr == EndsInCR(f, false)
    ensures Fix(Held(f) + b, cr) == Held(f) + Fix(b, cr)
    ensures EndsInCR(Held(f) + b, cr) == EndsInCR(b, cr)
  {
    HeldShape(f);
    FixAppend(Held(f), b, cr);
    FixedIsUnchanged(Held(f), cr);
  }

  /** What is passed on and held back can be computed from the held text alone. */
  lemma {:induction false} PassedFromHeld(f: string, y: string)
    requires y != "" && y[0] == '\n' ==> EndsInCR(f, false)
    ensures Passed(f + y) == Passed(f) + Passed(Held(f) + y)
    ensures Held(f + y) == Held(Held(f) + y)
  {
    HeldShape(f);
    TrimIsPrefix(DropCR(f));
    ConcatAssoc(Passed(f), Held(f), y);
    PassedAppend(Passed(f), Held(f) + y);
  }

  lemma {:induction false} EndsInCRAppend(a: string, b: string, cr: bool)
    ensures EndsInCR(a + b, cr) == EndsInCR(b, EndsInCR(a, cr))
    ensures EndsInCR(Fix(a, cr), cr) == EndsInCR(a, cr)
  {
    FixEnd(a, cr);
    if b == "" {
      assert a + b == a;
    }
  }

  lemma {:induction false} SimpleWriteTracks(st: BodyState, fed: string, b: string)
    requires Tracks(st, Simple, fed)
    ensures Tracks(Write(st, b), Simple, fed + b)
  {
    var f, y := Fix(fed, false), Fix(b, st.cr);
    EndsInCRAppend(fed, b, false);
    RefeedIsHarmless(f, st.cr, b);
    FixEnd(b, st.cr);
    PassedFromHeld(f, y);
    assert Fix(fed + b, false) == f + y by { FixAppend(fed, b, false); }
    var st' := Write(st, b);
    assert st'.out == Passed(f) + Passed(Held(f) + y);
    assert st'.crlfBuf == Held(Held(f) + y);
  }

  lemma {:induction false} WriteTracks(st: BodyState, alg: Algorithm, fed: string, b: string)
    requires Tracks(st, alg, fed)
    ensures Tracks(Write(st, b), alg, fed + b)
  {
    match alg
    case Simple =>
      SimpleWriteTracks(st, fed, b);
    case Relaxed =>
      FixAppend(fed, b, false);
      RelaxAppend(Fix(fed, false), Fix(b, st.cr), "", false);
  }

  lemma {:induction false} WriteAllTracks(alg: Algorithm, chunks: seq<string>)
    ensures Tracks(WriteAll(Start(alg), chunks), alg, Concat(chunks))
  {
    if chunks == [] {
    } else {
      var init, last := chunks[..|chunks| - 1], chunks[|chunks| - 1];
      WriteAllTracks(alg, init);
      WriteTracks(WriteAll(Start(alg), init), alg, Concat(init), last);
      assert chunks == init + [last];
      ConcatSnoc(init, last);
    }
  }

  lemma {:induction false} CloseTracks(st: BodyState, alg: Algorithm, fed: string)
    requires Tracks(st, alg, fed)
    ensures Close(st) == Canonical(alg, fed)
  {
    if alg == Simple {
      FixEnd(fed, false);
      HeldShape(Fix(fed, false));
      CloseShape(Fix(fed, false));
    }
  }

  /** For every way of cutting a body into writes, the output after `Close` is that of the whole body. */
  lemma {:induction false} StreamingIsWholeBody(alg: Algorithm, chunks: seq<string>)
    ensures Close(WriteAll(Start(alg), chunks)) == Canonical(alg, Concat(chunks))
  {
    WriteAllTracks(alg, chunks);
    CloseTracks(WriteAll(Start(alg), chunks), alg, Concat(chunks));
  }
}
