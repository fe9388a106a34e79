/**
 Choosing the header fields to hash (`headerPicker` in
 middleware/authres/dkim/header.go) and the bytes they contribute.
 */
module Picker {
  import opened Text
  import opened Strings
  import opened BodyCanonical
  import opened BodyWriters
  import opened Header
  import opened HeaderCanonical
  import opened Ranking
  import opened Selection

  function FoldedName(kv: string): string {
    ToLower(Name(kv))
  }

  /** The field names of `h`, in lower case. */
  function FoldedNames(h: seq<string>): (names: seq<string>)
    ensures |names| == |h|
  {
    Mapped(FoldedName, h)
  }

  function Folded(keys: seq<string>): (folded: seq<string>)
    ensures |folded| == |keys|
  {
    Mapped(ToLower, keys)
  }

  /** How many fields of `h` have the name `key`, and how often `keys` lists it, without regard to case. */
  function Occurs(h: seq<string>, key: string): nat {
    Count(FoldedNames(h), ToLower(key))
  }

  function Asked(keys: seq<string>, key: string): nat {
    Count(Folded(keys), ToLower(key))
  }

  // ----- the picker

  class HeaderPicker {
    const h: seq<string>
    var picked: map<string, nat>

    constructor (h: seq<string>)
      ensures this.h == h && picked == map[]
    {
      this.h := h;
      picked := map[];
    }

    /** How many fields of the (lower-case) name `k` have been handed out. */
    function Picked(k: string): nat
      reads this
    {
      if k in picked then picked[k] else 0
    }

    method Pick(key: string) returns (kv: string)
      modifies this
      ensures var k, n := ToLower(key), old(Picked(ToLower(key)));
              && kv == Nth(h, FoldedNames(h), k, n)
              && picked == if n < Occurs(h, key) then old(picked)[k := n + 1] else old(picked)
    {
      var k := ToLower(key);
      var taken := Picked(k);
      NthIsNthFromBottom(h, key, taken);
      var i := Search(h, k, taken);
      if i < 0 {
        return "";
      }
      picked := picked[k := taken + 1];
      return h[i];
    }

    /** The loop of `Pick`. */
    static method Search(h: seq<string>, k: string, taken: nat) returns (i: int)
      ensures i == NthFromEnd(FoldedNames(h), k, taken)
    {
      ghost var names := FoldedNames(h);
      var at := taken;
      i := |h|;
      assert names[..i] == names;
      while i > 0
        invariant 0 <= i <= |h| == |names| && at >= 0
        invariant NthFromEnd(names[..i], k, at) == NthFromEnd(names, k, taken)
      {
        i := i - 1;
        NthOfPrefix(names, i, k, at);
        assert names[i] == FoldedName(h[i]);
        if FoldedName(h[i]) != k {
          continue;
        }
        if at == 0 {
          return;
        }
        at := at - 1;
      }
      return -1;
    }
  }

  /**
   The picker's n-th answer for a name is the n-th field of that name from the
   bottom; after the last one it is "".
   */
  lemma {:induction false} NthIsNthFromBottom(h: seq<string>, key: string, n: nat)
    ensures var names, k := FoldedNames(h), ToLower(key);
            var i := NthFromEnd(names, k, n);
            if n < Occurs(h, key) then
              i >= 0 && Nth(h, names, k, n) == h[i] && names[i] == k && Count(names[i + 1..], k) == n
            else i == -1 && Nth(h, names, k, n) == ""
  {
    NthCharacterized(FoldedNames(h), ToLower(key), n);
  }

  // ----- the hashed bytes

  function Contribution(alg: Algorithm, kv: string): string {
    if kv == "" then "" else CanonicalHeader(alg, kv)
  }

  function Contributions(alg: Algorithm, h: seq<string>): (texts: seq<string>)
    ensures |texts| == |h|
  {
    Mapped(kv => Contribution(alg, kv), h)
  }

  /** What the fields picked for `keys` add to the hash. */
  function HashedHeaders(h: seq<string>, keys: seq<string>, alg: Algorithm): string {
    Hashed(Contributions(alg, h), FoldedNames(h), Folded(keys))
  }

  lemma {:induction false} NthContribution(h: seq<string>, alg: Algorithm, k: string, n: nat)
    ensures Nth(Contributions(alg, h), FoldedNames(h), k, n) == Contribution(alg, Nth(h, FoldedNames(h), k, n))
  {
  }

  /** Each key has been served as often as it was asked, but not more often than it occurs. */
  ghost predicate Served(picker: HeaderPicker, asked: seq<string>)
    reads picker
  {
    forall k :: picker.Picked(k) == Min(Count(asked, k), Count(FoldedNames(picker.h), k))
  }

  /** One turn of the loop over the header keys. */
  method HashNext(picker: HeaderPicker, keys: seq<string>, j: nat, alg: Algorithm, hasher: Hasher)
    requires j < |keys| && Served(picker, Folded(keys)[..j])
    modifies hasher, picker
    ensures Served(picker, Folded(keys)[..j + 1])
    ensures var texts, names := Contributions(alg, picker.h), FoldedNames(picker.h);
            hasher.data
              == old(hasher.data) + Nth(texts, names, Folded(keys)[j], Count(Folded(keys)[..j], Folded(keys)[j]))
  {
    ghost var key, names := Folded(keys)[j], FoldedNames(picker.h);
    ghost var n := Count(Folded(keys)[..j], key);
    NthBeyond(picker.h, names, key, n);
    NthContribution(picker.h, alg, key, n);
    ghost var was := picker.picked;
    var kv := picker.Pick(keys[j]);
    assert picker.Picked(key) == Min(n + 1, Count(names, key));
    forall k ensures picker.Picked(k) == Min(Count(Folded(keys)[..j + 1], k), Count(names, k)) {
      CountSnoc(Folded(keys), j, k);
      assert k != key ==> picker.Picked(k) == if k in was then was[k] else 0;
    }
    if kv != "" {
      hasher.Write(CanonicalHeader(alg, kv));
    }
  }

  /** The loop over the header keys in `NewSigner` and `verify`. */
  method HashHeaders(h: seq<string>, keys: seq<string>, alg: Algorithm, hasher: Hasher)
    modifies hasher
    ensures hasher.data == old(hasher.data) + HashedHeaders(h, keys, alg)
  {
    var picker := new HeaderPicker(h);
    ghost var texts, names, folded := Contributions(alg, h), FoldedNames(h), Folded(keys);
    for j := 0 to |keys|
      invariant hasher.data == old(hasher.data) + Hashed(texts, names, folded[..j])
      invariant picker.h == h && Served(picker, folded[..j])
    {
      HashedSnoc(texts, names, folded, j);
      ConcatAssoc(old(hasher.data), Hashed(texts, names, folded[..j]),
                  Nth(texts, names, folded[j], Count(folded[..j], folded[j])));
      HashNext(picker, keys, j, alg, hasher);
    }
    assert folded[..|keys|] == folded;
  }

  // ----- the default key list

  function Names(h: seq<string>): (names: seq<string>)
    ensures |names| == |h|
  {
    Mapped(Name, h)
  }

  /** Index of the field picked for the j-th key, or -1. */
  function PickedBy(h: seq<string>, keys: seq<string>, j: nat): int
    requires j < |keys|
  {
    ServedBy(FoldedNames(h), Folded(keys), j)
  }

  /** Whatever the keys are, no field is hashed twice. */
  lemma {:induction false} NoFieldTwice(h: seq<string>, keys: seq<string>, a: nat, b: nat)
    requires a < |keys| && b < |keys| && a != b && PickedBy(h, keys, a) >= 0
    ensures PickedBy(h, keys, a) != PickedBy(h, keys, b)
  {
    if PickedBy(h, keys, a) == PickedBy(h, keys, b) {
      ServedOnce(FoldedNames(h), Folded(keys), a, b);
    }
  }

  lemma {:induction false} FoldedDefaultKeys(h: seq<string>)
    ensures Folded(Names(h)) == FoldedNames(h)
  {
    forall i | 0 <= i < |h| ensures Folded(Names(h))[i] == FoldedNames(h)[i] {
      assert Names(h)[i] == Name(h[i]);
      assert Folded(Names(h))[i] == ToLower(Names(h)[i]);
      assert FoldedNames(h)[i] == FoldedName(h[i]);
    }
  }

  /** With the default key list, one key per field from the top, every field is hashed. */
  lemma {:induction false} DefaultKeysCoverHeader(h: seq<string>, i: nat)
    requires i < |h|
    ensures exists j :: 0 <= j < |h| && PickedBy(h, Names(h), j) == i
  {
    FoldedDefaultKeys(h);
    var j := AllServed(FoldedNames(h), i);
    assert PickedBy(h, Names(h), j) == i;
  }

  // ----- further fields

  lemma {:induction false} InsertedNames(h: seq<string>, p: nat, f: string, alg: Algorithm)
    requires p <= |h|
    ensures FoldedNames(Insert(h, p, f)) == Insert(FoldedNames(h), p, FoldedName(f))
    ensures Contributions(alg, Insert(h, p, f)) == Insert(Contributions(alg, h), p, Contribution(alg, f))
  {
    MappedInsert(FoldedName, h, p, f);
    MappedInsert(kv => Contribution(alg, kv), h, p, f);
  }

  /**
   Over-signing: when a name is listed more often than it occurs, inserting a
   further field of that name anywhere makes the hashed bytes longer.
   */
  lemma {:induction false} OverSigningDetectsInsertion(h: seq<string>, p: nat, f: string, keys: seq<string>,
                                                       alg: Algorithm)
    requires p <= |h| && f != ""
    requires Asked(keys, Name(f)) > Occurs(h, Name(f))
    ensures |HashedHeaders(Insert(h, p, f), keys, alg)| > |HashedHeaders(h, keys, alg)|
  {
    InsertedNames(h, p, f, alg);
    OverAskedGrows(Contributions(alg, h), FoldedNames(h), p, Contribution(alg, f), FoldedName(f), Folded(keys));
    CanonicalNonEmpty(alg, f);
  }

  /** A field prepended to the header leaves the hashed bytes unchanged exactly when its name is not over-signed. */
  lemma {:induction false} PrependedKeepsBytesExactly(h: seq<string>, f: string, keys: seq<string>, alg: Algorithm)
    requires f != ""
    ensures HashedHeaders([f] + h, keys, alg) == HashedHeaders(h, keys, alg)
            <==> Asked(keys, Name(f)) <= Occurs(h, Name(f))
  {
    assert Insert(h, 0, f) == [f] + h;
    if Asked(keys, Name(f)) <= Occurs(h, Name(f)) {
      var texts, names := Contributions(alg, h), FoldedNames(h);
      InsertedNames(h, 0, f, alg);
      InsertFirst(texts, Contribution(alg, f));
      InsertFirst(names, FoldedName(f));
      PrependedIsNotReached(texts, names, Contribution(alg, f), FoldedName(f), Folded(keys));
    } else {
      OverSigningDetectsInsertion(h, 0, f, keys, alg);
    }
  }

  /** Prepending a field whose name is over-signed adds its canonical form to what is hashed, once. */
  lemma {:induction false} PrependedGrowsBytes(h: seq<string>, f: string, keys: seq<string>, alg: Algorithm)
    requires f != "" && Asked(keys, Name(f)) > Occurs(h, Name(f))
    ensures |HashedHeaders([f] + h, keys, alg)| == |HashedHeaders(h, keys, alg)| + |CanonicalHeader(alg, f)|
  {
    assert Insert(h, 0, f) == [f] + h;
    InsertedNames(h, 0, f, alg);
    OverAskedGrows(Contributions(alg, h), FoldedNames(h), 0, Contribution(alg, f), FoldedName(f), Folded(keys));
  }

  lemma {:induction false} InsertFirst<T>(s: seq<T>, x: T)
    ensures Insert(s, 0, x) == [x] + s
  {
  }
}
