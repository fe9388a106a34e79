/**
 The writers of middleware/authres/dkim/canonical.go as objects: the CRLF fixer
 and the two body canonicalizers, writing into a hash.
 */
module BodyWriters {
  import opened Text
  import opened BodyCanonical

  /** A hash in progress: `data` is everything written to it since the last reset. */
  class Hasher {
    var data: string

    constructor ()
      ensures data == ""
    {
      data := "";
    }

    method Write(s: string)
      modifies this
      ensures data == old(data) + s
    {
      data := data + s;
    }

    method Reset()
      modifies this
      ensures data == ""
    {
      data := "";
    }
  }

  class CrlfFixer {
    var cr: bool

    constructor ()
      ensures !cr
    {
      cr := false;
    }

    method Fix(b: string) returns (res: string)
      modifies this
      ensures res == BodyCanonical.Fix(b, old(cr)) && cr == EndsInCR(b, old(cr))
    {
      res := "";
      for i := 0 to |b|
        invariant res == BodyCanonical.Fix(b[..i], old(cr)) && cr == EndsInCR(b[..i], old(cr))
      {
        var ch := b[i];
        var prevCR := cr;
        cr := false;
        FixAppend(b[..i], [ch], old(cr));
        assert b[..i + 1] == b[..i] + [ch];
        assert BodyCanonical.Fix([ch], prevCR) == FixChar(ch, prevCR) + "";
        if ch == '\r' {
          cr := true;
        } else if ch == '\n' {
          if !prevCR {
            res := res + "\r";
          }
        }
        res := res + [ch];
      }
      assert b[..|b|] == b;
    }
  }

  class SimpleBodyCanonicalizer {
    const w: Hasher
    var crlfBuf: string
    const crlfFixer: CrlfFixer

    /** The writer's state after having written `out` into `w`. */
    ghost function State(out: string): BodyState
      reads this, crlfFixer
    {
      SimpleState(crlfBuf, crlfFixer.cr, out)
    }

    constructor (w: Hasher)
      ensures this.w == w && fresh(crlfFixer)
      ensures State("") == Start(Simple)
    {
      this.w := w;
      crlfBuf := "";
      crlfFixer := new CrlfFixer();
    }

    method Write(chunk: string) returns (written: nat)
      modifies this, w, crlfFixer
      ensures written == |chunk|
      ensures old(w.data) <= w.data
      ensures State(w.data) == BodyCanonical.Write(old(State(w.data)), chunk)
    {
      written := |chunk|;
      var b := crlfFixer.Fix(crlfBuf + chunk);
      var end := HoldBack(b);
      crlfBuf := b[end..];
      if end > 0 {
        w.Write(b[..end]);
      } else {
        assert w.data == w.data + b[..end];
      }
    }

    /** Where the text to be held back starts: a last CR, and all CRLFs before it. */
    static method HoldBack(b: string) returns (end: nat)
      ensures end <= |b| && b[..end] == Passed(b)
    {
      end := |b|;
      if end > 0 && b[end - 1] == '\r' {
        end := end - 1;
      }
      assert b[..end] == DropCR(b);
      while end >= 2
        invariant end <= |b| && TrimCrlfs(b[..end]) == TrimCrlfs(DropCR(b))
      {
        var prev, cur := b[end - 2], b[end - 1];
        if prev != '\r' || cur != '\n' {
          break;
        }
        assert b[..end][..end - 2] == b[..end - 2];
        end := end - 2;
      }
    }

    method Close()
      modifies this, w
      ensures w.data == BodyCanonical.Close(old(State(w.data)))
    {
      if |crlfBuf| > 0 && crlfBuf[|crlfBuf| - 1] == '\r' {
        w.Write(crlfBuf);
      }
      crlfBuf := "";
      w.Write(CRLF);
    }
  }

  /** What one more character does. */
  lemma {:induction false} RelaxNext(b: string, i: nat, held: string, wsp: bool)
    requires i < |b|
    ensures var a, ch := b[..i], b[i];
            var h, w := HeldAfter(a, held), WspAfter(a, wsp);
            && Relax(b[..i + 1], held, wsp)
               == Relax(a, held, wsp) + (if IsWsp(ch) || IsLineEnd(ch) then "" else h + (if w then " " else "") + [ch])
            && HeldAfter(b[..i + 1], held) == (if IsWsp(ch) then h else if IsLineEnd(ch) then h + [ch] else "")
            && WspAfter(b[..i + 1], wsp) == IsWsp(ch)
  {
    assert b[..i + 1] == b[..i] + [b[i]] && [b[i]][1..] == "";
    RelaxAppend(b[..i], [b[i]], held, wsp);
  }

  class RelaxedBodyCanonicalizer {
    const w: Hasher
    var crlfBuf: string
    var wsp: bool
    var written: bool
    const crlfFixer: CrlfFixer

    ghost function State(out: string): BodyState
      reads this, crlfFixer
    {
      RelaxedState(crlfBuf, wsp, written, crlfFixer.cr, out)
    }

    constructor (w: Hasher)
      ensures this.w == w && fresh(crlfFixer)
      ensures State("") == Start(Relaxed)
    {
      this.w := w;
      crlfBuf, wsp, written := "", false, false;
      crlfFixer := new CrlfFixer();
    }

    method Write(chunk: string) returns (n: nat)
      modifies this, w, crlfFixer
      ensures n == |chunk|
      ensures old(w.data) <= w.data
      ensures State(w.data) == BodyCanonical.Write(old(State(w.data)), chunk)
    {
      n := |chunk|;
      var b := crlfFixer.Fix(chunk);
      var canonical := "";
      for i := 0 to |b|
        invariant canonical == Relax(b[..i], old(crlfBuf), old(wsp))
        invariant crlfBuf == HeldAfter(b[..i], old(crlfBuf)) && wsp == WspAfter(b[..i], old(wsp))
        invariant written == old(written) && w.data == old(w.data) && crlfFixer.cr == EndsInCR(chunk, old(crlfFixer.cr))
      {
        var ch := b[i];
        RelaxNext(b, i, old(crlfBuf), old(wsp));
        if IsWsp(ch) {
          wsp := true;
        } else if IsLineEnd(ch) {
          wsp := false;
          crlfBuf := crlfBuf + [ch];
        } else {
          if |crlfBuf| > 0 {
            canonical := canonical + crlfBuf;
            crlfBuf := "";
          }
          if wsp {
            canonical := canonical + " ";
            wsp := false;
          }
          canonical := canonical + [ch];
        }
      }
      assert b[..|b|] == b;
      if !written && |canonical| > 0 {
        written := true;
      }
      w.Write(canonical);
    }

    method Close()
      modifies w
      ensures w.data == BodyCanonical.Close(old(State(w.data)))
    {
      if written {
        w.Write(CRLF);
      }
    }
  }
}
