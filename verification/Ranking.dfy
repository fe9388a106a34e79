/** Occurrences of a value in a sequence, counted from its end. */
module Ranking {

  function Count<T(==)>(s: seq<T>, x: T): nat {
    if s == [] then 0 else Count(s[..|s| - 1], x) + if s[|s| - 1] == x then 1 else 0
  }

  /** Index of the `x` in `s` that has `n` further ones behind it, or -1. */
  function NthFromEnd<T(==)>(s: seq<T>, x: T, n: nat): (i: int)
    ensures -1 <= i < |s|
  {
    if s == [] then -1
    else
      var last := |s| - 1;
      if s[last] != x then NthFromEnd(s[..last], x, n)
      else if n == 0 then last
      else NthFromEnd(s[..last], x, n - 1)
  }

  lemma {:induction false} NthOfPrefix<T>(s: seq<T>, i: nat, x: T, n: nat)
    requires i < |s|
    ensures NthFromEnd(s[..i + 1], x, n)
         == if s[i] != x then NthFromEnd(s[..i], x, n) else if n == 0 then i else NthFromEnd(s[..i], x, n - 1)
  {
    assert s[..i + 1][..i] == s[..i];
  }

  lemma {:induction false} CountAppend<T>(a: seq<T>, b: seq<T>, x: T)
    ensures Count(a + b, x) == Count(a, x) + Count(b, x)
  {
    if b == [] {
      assert a + b == a;
    } else {
      var init := b[..|b| - 1];
      assert (a + b)[..|a + b| - 1] == a + init;
      CountAppend(a, init, x);
    }
  }

  lemma {:induction false} CountSplit<T>(s: seq<T>, i: nat, x: T)
    requires i <= |s|
    ensures Count(s, x) == Count(s[..i], x) + Count(s[i..], x)
  {
    assert s == s[..i] + s[i..];
    CountAppend(s[..i], s[i..], x);
  }

  lemma {:induction false} CountOne<T>(s: seq<T>, i: nat, x: T)
    requires i < |s|
    ensures Count(s[i..], x) == Count(s[i + 1..], x) + if s[i] == x then 1 else 0
  {
    assert s[i..] == [s[i]] + s[i + 1..];
    CountAppend([s[i]], s[i + 1..], x);
    assert [s[i]][..0] == [];
  }

  lemma {:induction false} CountSnoc<T>(s: seq<T>, i: nat, x: T)
    requires i < |s|
    ensures Count(s[..i + 1], x) == Count(s[..i], x) + if s[i] == x then 1 else 0
  {
    assert s[..i + 1][..i] == s[..i];
  }

  lemma {:induction false} CountBehind<T>(s: seq<T>, i: nat, x: T)
    requires i < |s| - 1
    ensures Count(s[i + 1..], x) == Count(s[..|s| - 1][i + 1..], x) + if s[|s| - 1] == x then 1 else 0
  {
    var below := s[i + 1..];
    assert below[..|below| - 1] == s[..|s| - 1][i + 1..];
  }

  /** `NthFromEnd` finds the position with `n` occurrences behind it, and fails exactly when there are not so many. */
  lemma {:induction false} NthCharacterized<T>(s: seq<T>, x: T, n: nat)
    ensures var i := NthFromEnd(s, x, n);
            if n < Count(s, x) then i >= 0 && s[i] == x && Count(s[i + 1..], x) == n else i == -1
  {
    if s != [] {
      var last := |s| - 1;
      var init := s[..last];
      if s[last] == x && n == 0 {
        assert s[last + 1..] == [];
      } else {
        var m := if s[last] == x then n - 1 else n;
        NthCharacterized(init, x, m);
        if NthFromEnd(init, x, m) >= 0 {
          CountBehind(s, NthFromEnd(init, x, m), x);
        }
      }
    }
  }

  lemma {:induction false} RankDecreases<T>(s: seq<T>, i: nat, j: nat, x: T)
    requires i < j < |s| && s[j] == x
    ensures Count(s[i + 1..], x) > Count(s[j + 1..], x)
  {
    var below := s[i + 1..];
    CountSplit(below, j - (i + 1), x);
    CountOne(below, j - (i + 1), x);
    assert below[j - i..] == s[j + 1..];
  }

  lemma {:induction false} RankDetermines<T>(s: seq<T>, i: nat, j: nat)
    requires i < |s| && j < |s| && s[i] == s[j] && Count(s[i + 1..], s[i]) == Count(s[j + 1..], s[i])
    ensures i == j
  {
    if i < j {
      RankDecreases(s, i, j, s[i]);
    } else if j < i {
      RankDecreases(s, j, i, s[i]);
    }
  }

  /** Every position is found, with the number of occurrences behind it. */
  lemma {:induction false} NthOfPosition<T>(s: seq<T>, i: nat)
    requires i < |s|
    ensures var n := Count(s[i + 1..], s[i]); n < Count(s, s[i]) && NthFromEnd(s, s[i], n) == i
  {
    var n := Count(s[i + 1..], s[i]);
    CountSplit(s, i, s[i]);
    CountOne(s, i, s[i]);
    NthCharacterized(s, s[i], n);
    RankDetermines(s, i, NthFromEnd(s, s[i], n));
  }

  /** No position is found in two ways. */
  lemma {:induction false} NthIsInjective<T>(s: seq<T>, x: T, n: nat, y: T, m: nat)
    requires NthFromEnd(s, x, n) >= 0 && NthFromEnd(s, x, n) == NthFromEnd(s, y, m)
    ensures x == y && n == m
  {
    NthCharacterized(s, x, n);
    NthCharacterized(s, y, m);
  }

  /** The position of the `x` with `n` occurrences in front of it. */
  lemma {:induction false} NthFromStart<T>(s: seq<T>, x: T, n: nat) returns (j: nat)
    requires n < Count(s, x)
    ensures j < |s| && s[j] == x && Count(s[..j], x) == n
  {
    var init := s[..|s| - 1];
    if n < Count(init, x) {
      j := NthFromStart(init, x, n);
      assert init[..j] == s[..j];
    } else {
      j := |s| - 1;
    }
  }

  lemma {:induction false} CountGrows<T>(s: seq<T>, a: nat, b: nat, x: T)
    requires a < b <= |s| && s[a] == x
    ensures Count(s[..a], x) < Count(s[..b], x)
  {
    CountSplit(s[..b], a, x);
    CountOne(s[..b], a, x);
    assert s[..b][..a] == s[..a];
  }

  /** Position found for `keys[j]` when the keys before it have been served. */
  function ServedBy<T(==)>(s: seq<T>, keys: seq<T>, j: nat): int
    requires j < |keys|
  {
    NthFromEnd(s, keys[j], Count(keys[..j], keys[j]))
  }

  /** No two keys are served the same position. */
  lemma {:induction false} ServedOnce<T>(s: seq<T>, keys: seq<T>, a: nat, b: nat)
    requires a < |keys| && b < |keys| && ServedBy(s, keys, a) == ServedBy(s, keys, b) >= 0
    ensures a == b
  {
    NthIsInjective(s, keys[a], Count(keys[..a], keys[a]), keys[b], Count(keys[..b], keys[b]));
    if a < b {
      CountGrows(keys, a, b, keys[a]);
    } else if b < a {
      CountGrows(keys, b, a, keys[a]);
    }
  }

  /** When the keys are the sequence itself, every position is served. */
  lemma {:induction false} AllServed<T>(s: seq<T>, i: nat) returns (j: nat)
    requires i < |s|
    ensures j < |s| && ServedBy(s, s, j) == i
  {
    NthOfPosition(s, i);
    j := NthFromStart(s, s[i], Count(s[i + 1..], s[i]));
  }
}
