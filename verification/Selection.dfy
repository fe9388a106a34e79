/**
 Hashing named texts in the order of a list of keys, each key taking the next
 text of its name from the bottom.
 */
module Selection {
  import opened Text
  import opened Ranking

  /** The text named `key` that has `n` texts of that name below it, or "". */
  function Nth<K(==)>(texts: seq<string>, names: seq<K>, key: K, n: nat): string
    requires |texts| == |names|
  {
    var i := NthFromEnd(names, key, n);
    if i < 0 then "" else texts[i]
  }

  /** All texts taken by the keys, one after the other. */
  function Hashed<K(==)>(texts: seq<string>, names: seq<K>, keys: seq<K>): string
    requires |texts| == |names|
  {
    if keys == [] then ""
    else
      var init, key := keys[..|keys| - 1], keys[|keys| - 1];
      Hashed(texts, names, init) + Nth(texts, names, key, Count(init, key))
  }

  lemma {:induction false} HashedSnoc<K>(texts: seq<string>, names: seq<K>, keys: seq<K>, j: nat)
    requires |texts| == |names| && j < |keys|
    ensures Hashed(texts, names, keys[..j + 1])
         == Hashed(texts, names, keys[..j]) + Nth(texts, names, keys[j], Count(keys[..j], keys[j]))
  {
    assert keys[..j + 1][..j] == keys[..j];
  }

  function Min(a: nat, b: nat): nat {
    if a < b then a else b
  }

  /** Asking beyond the last text of a name is like asking right after it. */
  lemma {:induction false} NthBeyond<K>(texts: seq<string>, names: seq<K>, key: K, n: nat)
    requires |texts| == |names|
    ensures Nth(texts, names, key, Min(n, Count(names, key))) == Nth(texts, names, key, n)
    ensures n >= Count(names, key) ==> Nth(texts, names, key, n) == ""
  {
    NthCharacterized(names, key, n);
    NthCharacterized(names, key, Count(names, key));
  }

  // ----- inserting a text

  function Insert<T>(s: seq<T>, p: nat, x: T): seq<T>
    requires p <= |s|
  {
    s[..p] + [x] + s[p..]
  }

  lemma {:induction false} MappedInsert<T, U>(f: T -> U, s: seq<T>, p: nat, x: T)
    requires p <= |s|
    ensures Mapped(f, Insert(s, p, x)) == Insert(Mapped(f, s), p, f(x))
  {
  }

  /** Which text a key takes after `t`, named `k`, has been inserted at `p`. */
  lemma {:induction false} NthInserted<K>(texts: seq<string>, names: seq<K>, p: nat, t: string, k: K, key: K, n: nat)
    requires |texts| == |names| && p <= |texts|
    ensures var q := Count(names[p..], key);
            Nth(Insert(texts, p, t), Insert(names, p, k), key, n)
            == if k != key || n < q then Nth(texts, names, key, n)
               else if n == q then t
               else Nth(texts, names, key, n - 1)
    decreases |texts|
  {
    if p == |texts| {
      NthAppended(texts, names, t, k, key, n);
      assert Insert(texts, p, t) == texts + [t] && Insert(names, p, k) == names + [k] && names[p..] == [];
    } else {
      var last := |texts| - 1;
      LastOfInsert(texts, p, t);
      LastOfInsert(names, p, k);
      NthStep(Insert(texts, p, t), Insert(names, p, k), key, n);
      NthStep(texts, names, key, n);
      CountLast(names, p, key);
      NthInserted(texts[..last], names[..last], p, t, k, key, if names[last] == key && n > 0 then n - 1 else n);
    }
  }

  lemma {:induction false} NthAppended<K>(texts: seq<string>, names: seq<K>, t: string, k: K, key: K, n: nat)
    requires |texts| == |names|
    ensures Nth(texts + [t], names + [k], key, n)
         == if k != key then Nth(texts, names, key, n) else if n == 0 then t else Nth(texts, names, key, n - 1)
  {
    assert (texts + [t])[..|texts|] == texts && (names + [k])[..|names|] == names;
  }

  lemma {:induction false} NthStep<K>(texts: seq<string>, names: seq<K>, key: K, n: nat)
    requires |texts| == |names| > 0
    ensures var last := |texts| - 1;
            Nth(texts, names, key, n)
            == if names[last] != key then Nth(texts[..last], names[..last], key, n)
               else if n == 0 then texts[last]
               else Nth(texts[..last], names[..last], key, n - 1)
  {
  }

  lemma {:induction false} CountLast<K>(names: seq<K>, p: nat, key: K)
    requires p < |names|
    ensures var last := |names| - 1;
            Count(names[p..], key) == Count(names[..last][p..], key) + if names[last] == key then 1 else 0
  {
    var last := |names| - 1;
    assert names[p..][..last - p] == names[..last][p..];
  }

  lemma {:induction false} LastOfInsert<T>(s: seq<T>, p: nat, x: T)
    requires p < |s|
    ensures Insert(s, p, x)[..|s|] == Insert(s[..|s| - 1], p, x) && Insert(s, p, x)[|s|] == s[|s| - 1]
  {
  }

  /** Length of what the first `n` keys of one name take. */
  function TakenLength<K(==)>(texts: seq<string>, names: seq<K>, key: K, n: nat): nat
    requires |texts| == |names|
  {
    if n == 0 then 0 else TakenLength(texts, names, key, n - 1) + |Nth(texts, names, key, n - 1)|
  }

  lemma {:induction false} TakenLengthInserted<K>(texts: seq<string>, names: seq<K>, p: nat, t: string, k: K, n: nat)
    requires |texts| == |names| && p <= |texts|
    ensures TakenLength(Insert(texts, p, t), Insert(names, p, k), k, n)
         == if n <= Count(names[p..], k) then TakenLength(texts, names, k, n)
            else TakenLength(texts, names, k, n - 1) + |t|
  {
    if n > 0 {
      TakenLengthInserted(texts, names, p, t, k, n - 1);
      NthInserted(texts, names, p, t, k, k, n - 1);
    }
  }

  /** Inserting a text only changes what the keys of its own name take. */
  lemma {:induction false} HashedLengthInserted<K>(texts: seq<string>, names: seq<K>, p: nat, t: string, k: K,
                                                   keys: seq<K>)
    requires |texts| == |names| && p <= |texts|
    ensures var a := Count(keys, k);
            |Hashed(Insert(texts, p, t), Insert(names, p, k), keys)| + TakenLength(texts, names, k, a)
            == |Hashed(texts, names, keys)| + TakenLength(Insert(texts, p, t), Insert(names, p, k), k, a)
    decreases |keys|
  {
    if keys != [] {
      var init, key := keys[..|keys| - 1], keys[|keys| - 1];
      HashedLengthInserted(texts, names, p, t, k, init);
      if key != k {
        NthInserted(texts, names, p, t, k, key, Count(init, key));
      }
    }
  }

  /** A name asked for more often than it occurs: inserting a text of that name anywhere adds to what is hashed. */
  lemma {:induction false} OverAskedGrows<K>(texts: seq<string>, names: seq<K>, p: nat, t: string, k: K, keys: seq<K>)
    requires |texts| == |names| && p <= |texts|
    requires Count(keys, k) > Count(names, k)
    ensures |Hashed(Insert(texts, p, t), Insert(names, p, k), keys)| == |Hashed(texts, names, keys)| + |t|
  {
    var a := Count(keys, k);
    HashedLengthInserted(texts, names, p, t, k, keys);
    TakenLengthInserted(texts, names, p, t, k, a);
    NthBeyond(texts, names, k, a - 1);
    CountSplit(names, p, k);
  }

  /** A name asked for at most as often as it occurs: a text put on top is never reached. */
  lemma {:induction false} PrependedIsNotReached<K>(texts: seq<string>, names: seq<K>, t: string, k: K, keys: seq<K>)
    requires |texts| == |names|
    requires Count(keys, k) <= Count(names, k)
    ensures Hashed([t] + texts, [k] + names, keys) == Hashed(texts, names, keys)
    decreases |keys|
  {
    if keys != [] {
      var init, key := keys[..|keys| - 1], keys[|keys| - 1];
      PrependedIsNotReached(texts, names, t, k, init);
      assert Insert(texts, 0, t) == [t] + texts && Insert(names, 0, k) == [k] + names && names[0..] == names;
      NthInserted(texts, names, 0, t, k, key, Count(init, key));
    }
  }
}
