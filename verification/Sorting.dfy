/** The byte order on strings, and the one way to list a set of strings in it. */
module Sorting {

  /** Go's `<` on strings. */
  predicate Less(a: string, b: string) {
    b != "" && (a == "" || a[0] < b[0] || (a[0] == b[0] && Less(a[1..], b[1..])))
  }

  lemma {:induction false} LessTransitive(a: string, b: string, c: string)
    requires Less(a, b) && Less(b, c)
    ensures Less(a, c)
  {
    if a != "" && a[0] == b[0] == c[0] {
      LessTransitive(a[1..], b[1..], c[1..]);
    }
  }

  lemma {:induction false} LessTotal(a: string, b: string)
    ensures !Less(a, a)
    ensures a == b || Less(a, b) || Less(b, a)
  {
    if a != "" {
      if b != "" && a[0] == b[0] {
        LessTotal(a[1..], b[1..]);
        assert a[1..] == b[1..] ==> a == [a[0]] + a[1..] == [b[0]] + b[1..] == b;
      } else {
        LessTotal(a[1..], "");
      }
    }
  }

  lemma {:induction false} LessAsymmetric(a: string, b: string)
    ensures !(Less(a, b) && Less(b, a))
  {
    if Less(a, b) && Less(b, a) {
      LessTransitive(a, b, a);
      LessTotal(a, a);
    }
  }

  /** A string comes before its continuations, and before every string with a greater byte at the first difference. */
  lemma {:induction false} LessIs(p: string, c: char, q: string, d: char, r: string)
    ensures Less(p, p + [c] + q)
    ensures c < d ==> Less(p + [c] + q, p + [d] + r)
  {
    if p != "" {
      LessIs(p[1..], c, q, d, r);
      assert (p + [c] + q)[1..] == p[1..] + [c] + q && (p + [d] + r)[1..] == p[1..] + [d] + r;
    }
  }

  predicate IsLeast(m: string, s: set<string>) {
    m in s && forall k :: k in s && k != m ==> Less(m, k)
  }

  lemma {:induction false} LeastExists(s: set<string>)
    requires s != {}
    ensures exists m :: IsLeast(m, s)
  {
    var x :| x in s;
    var rest := s - {x};
    assert forall k :: k in s && k != x ==> k in rest;
    if rest == {} {
      assert IsLeast(x, s);
    } else {
      LeastExists(rest);
      var m :| IsLeast(m, rest);
      LessTotal(x, m);
      if Less(x, m) {
        forall k | k in rest ensures Less(x, k) {
          if k != m {
            LessTransitive(x, m, k);
          }
        }
        assert IsLeast(x, s);
      } else {
        assert IsLeast(m, s);
      }
    }
  }

  function Least(s: set<string>): (m: string)
    requires s != {}
    ensures IsLeast(m, s)
  {
    LeastExists(s);
    assert forall a, b :: IsLeast(a, s) && IsLeast(b, s) ==> a == b by {
      forall a, b | IsLeast(a, s) && IsLeast(b, s) ensures a == b {
        LessAsymmetric(a, b);
      }
    }
    var m :| IsLeast(m, s);
    m
  }

  predicate StrictlySorted(ks: seq<string>) {
    forall i, j :: 0 <= i < j < |ks| ==> Less(ks[i], ks[j])
  }

  /** `sort.Strings` on the elements of a set. */
  function SortedKeys(s: set<string>): (ks: seq<string>)
    ensures StrictlySorted(ks)
    ensures forall k :: k in ks <==> k in s
    decreases |s|
  {
    if s == {} then []
    else
      var m := Least(s);
      var rest := SortedKeys(s - {m});
      assert forall i :: 0 <= i < |rest| ==> rest[i] in rest;
      [m] + rest
  }

  lemma {:induction false} FirstIsMember(a: seq<string>)
    requires a != []
    ensures a[0] in a
  {
  }

  /** There is only one such list. */
  lemma {:induction false} SortedUnique(a: seq<string>, b: seq<string>)
    requires StrictlySorted(a) && StrictlySorted(b)
    requires forall k :: k in a <==> k in b
    ensures a == b
  {
    if a == [] {
      if b != [] {
        FirstIsMember(b);
        assert false;
      }
    } else {
      assert a[0] in b && b[0] in a;
      if a[0] != b[0] {
        var i :| 0 <= i < |b| && b[i] == a[0];
        var j :| 0 <= j < |a| && a[j] == b[0];
        LessAsymmetric(a[0], b[0]);
        assert false;
      }
      forall k ensures k in a[1..] <==> k in b[1..] {
        SortedTail(a, k);
        SortedTail(b, k);
      }
      SortedUnique(a[1..], b[1..]);
      assert a == [a[0]] + a[1..] && b == [b[0]] + b[1..];
    }
  }

  lemma {:induction false} SortedTail(a: seq<string>, k: string)
    requires StrictlySorted(a) && a != []
    ensures k in a[1..] <==> k in a && k != a[0]
  {
    LessTotal(a[0], a[0]);
    if k in a && k != a[0] {
      var i :| 0 <= i < |a| && a[i] == k;
      assert a[1..][i - 1] == k;
    }
  }
}
