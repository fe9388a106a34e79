/**
 Which fields of a header are signatures, how many verdicts a report has, and
 that the case of names matters nowhere.
 */
module SignatureFields {
  import opened Text
  import opened Strings
  import opened BodyCanonical
  import opened Header
  import opened HeaderCanonical
  import opened HeaderLaws
  import opened Ranking
  import opened Selection
  import opened Picker
  import opened Verifying

  // ----- which fields are signatures

  /** The name of the field is `dkim-signature` in any case. */
  predicate NamedSignature(kv: string) {
    ToLower(Name(kv)) == "dkim-signature"
  }

  lemma {:induction false} LowerHalves()
    ensures ToLower("DKIM-S") == "dkim-s" && ToLower("ignature") == "ignature"
  {
    LowerAt("DKIM-S");
    LowerAt("ignature");
  }

  lemma {:induction false} TwoHalves()
    ensures "DKIM-S" + "ignature" == "DKIM-Signature"
  {
  }

  lemma {:induction false} TwoLowerHalves()
    ensures "dkim-s" + "ignature" == "dkim-signature"
  {
  }

  lemma {:induction false} LowerFieldName()
    ensures ToLower("DKIM-Signature") == "dkim-signature"
  {
    LowerHalves();
    LowerAppend("DKIM-S", "ignature");
    TwoHalves();
    TwoLowerHalves();
  }

  lemma {:induction false} SignatureIs(kv: string)
    ensures IsSignature(kv) <==> NamedSignature(kv)
  {
    LowerFieldName();
  }

  /** Strictly increasing positions in a sequence of length `n`. */
  predicate Ascending(at: seq<nat>, n: nat) {
    && (forall i, j :: 0 <= i < j < |at| ==> at[i] < at[j])
    && (forall i :: 0 <= i < |at| ==> at[i] < n)
  }

  /** The positions among the first `n` fields at which `p` holds. */
  function Places(h: seq<string>, n: nat, p: string -> bool): (at: seq<nat>)
    requires n <= |h|
    ensures Ascending(at, n)
    ensures forall j :: 0 <= j < n ==> (j in at <==> p(h[j]))
  {
    if n == 0 then []
    else
      var before := Places(h, n - 1, p);
      if p(h[n - 1]) then
        OneMorePlace(before, n - 1);
        before + [n - 1]
      else
        assert forall j :: 0 <= j < n && j in before ==> j < n - 1;
        before
  }

  lemma {:induction false} OneMorePlace(at: seq<nat>, n: nat)
    requires Ascending(at, n)
    ensures Ascending(at + [n], n + 1) && forall j :: j in at + [n] <==> j in at || j == n
  {
  }

  /** The fields for which `p` holds. */
  function Chosen(h: seq<string>, p: string -> bool): seq<string> {
    if h == [] then [] else (if p(h[0]) then [h[0]] else []) + Chosen(h[1..], p)
  }

  lemma {:induction false} ChosenSnoc(h: seq<string>, kv: string, p: string -> bool)
    ensures Chosen(h + [kv], p) == Chosen(h, p) + if p(kv) then [kv] else []
  {
    if h == [] {
      assert (h + [kv])[1..] == [] && h + [kv] == [kv];
    } else {
      ChosenSnoc(h[1..], kv, p);
      assert (h + [kv])[1..] == h[1..] + [kv];
    }
  }

  lemma {:induction false} ChosenAt(h: seq<string>, n: nat, p: string -> bool)
    requires n <= |h|
    ensures var at := Places(h, n, p);
            |Chosen(h[..n], p)| == |at| && forall i :: 0 <= i < |at| ==> Chosen(h[..n], p)[i] == h[at[i]]
  {
    if n > 0 {
      ChosenAt(h, n - 1, p);
      ChosenSnoc(h[..n - 1], h[n - 1], p);
      assert h[..n] == h[..n - 1] + [h[n - 1]];
    }
  }

  lemma {:induction false} ChosenCounted(h: seq<string>, p: string -> bool, f: string -> string, x: string)
    requires forall kv :: p(kv) <==> f(kv) == x
    ensures |Chosen(h, p)| == Count(Mapped(f, h), x)
  {
    if h != [] {
      var init, last := h[..|h| - 1], h[|h| - 1];
      ChosenCounted(init, p, f, x);
      ChosenSnoc(init, last, p);
      assert h == init + [last];
      assert Mapped(f, h)[..|h| - 1] == Mapped(f, init);
    }
  }

  lemma {:induction false} SignaturesAreChosen(h: seq<string>)
    ensures Signatures(h) == Chosen(h, NamedSignature)
  {
    if h != [] {
      SignatureIs(h[0]);
      SignaturesAreChosen(h[1..]);
    }
  }

  /** The signatures are the fields of that name, in order, and no others. */
  lemma {:induction false} SignaturesAreNamed(h: seq<string>)
    ensures var at := Places(h, |h|, NamedSignature);
            |Signatures(h)| == |at| && forall i :: 0 <= i < |at| ==> Signatures(h)[i] == h[at[i]]
  {
    SignaturesAreChosen(h);
    ChosenAt(h, |h|, NamedSignature);
    assert h[..|h|] == h;
  }

  lemma {:induction false} NamedIsFolded(kv: string)
    ensures NamedSignature(kv) <==> FoldedName(kv) == ToLower("DKIM-Signature")
  {
    LowerFieldName();
  }

  /** There are as many as fields of that name. */
  lemma {:induction false} SignaturesCounted(h: seq<string>)
    ensures |Signatures(h)| == Occurs(h, "DKIM-Signature")
  {
    SignaturesAreChosen(h);
    forall kv ensures NamedSignature(kv) <==> FoldedName(kv) == ToLower("DKIM-Signature") {
      NamedIsFolded(kv);
    }
    ChosenCounted(h, NamedSignature, FoldedName, ToLower("DKIM-Signature"));
  }

  lemma {:induction false} ChosenOne(kv: string, p: string -> bool)
    ensures Chosen([kv], p) == if p(kv) then [kv] else []
  {
    assert [kv][1..] == [] && [kv] + [] == [kv];
  }

  lemma {:induction false} OneSignature(kv: string)
    ensures Signatures([kv]) == if NamedSignature(kv) then [kv] else []
  {
    SignaturesAreChosen([kv]);
    ChosenOne(kv, NamedSignature);
  }

  /** Every spelling of the name counts, with white space around it too. */
  lemma {:induction false} SpelledAnyHow(a: string, k: string, e: string, v: string)
    requires AllOf(a, IsSpace) && AllOf(e, IsSpace) && Trimmed(k) && ':' !in k
    ensures Signatures([a + k + e + ":" + v]) == if ToLower(k) == "dkim-signature" then [a + k + e + ":" + v] else []
  {
    NameIs(a, k, e, v);
    OneSignature(a + k + e + ":" + v);
  }

  // ----- reports

  lemma {:induction false} EachVerdict(h: seq<string>, body: string, max: int, w: World)
    ensures var sigs := Signatures(h);
            var vs, n := VerifyEach(h, body, Limited(sigs, max), w), |sigs|;
            && |vs| == (if 0 < max < n then max else n)
            && forall i :: 0 <= i < |vs| ==> vs[i] == VerifyOne(h, body, sigs[i], w)
  {
    var sigs := Limited(Signatures(h), max);
    forall i | 0 <= i < |sigs| ensures VerifyEach(h, body, sigs, w)[i] == VerifyOne(h, body, Signatures(h)[i], w) {
      VerifyEachAt(h, body, sigs, w, i);
    }
  }

  /**
   One verdict for each of the fields at `at` up to a positive limit, in order,
   and whether there were more.
   */
  predicate ReportsOn(report: Report, h: seq<string>, at: seq<nat>, body: string, max: int, w: World)
    requires Ascending(at, |h|)
  {
    var n := |at|;
    && report.Report?
    && (report.tooMany <==> 0 < max < n)
    && |report.verifications| == (if 0 < max < n then max else n)
    && forall i :: 0 <= i < |report.verifications| ==> report.verifications[i] == VerifyOne(h, body, h[at[i]], w)
  }

  lemma {:induction false} VerifyAllIs(msg: string, max: int, w: World)
    requires ReadHeader(msg).Header?
    ensures var h, body, sigs := ReadHeader(msg).h, ReadHeader(msg).rest, Signatures(ReadHeader(msg).h);
            VerifyAll(msg, max, w) == Report(VerifyEach(h, body, Limited(sigs, max), w), 0 < max < |sigs|)
  {
  }

  lemma {:induction false} EachReported(h: seq<string>, at: seq<nat>, body: string, max: int, w: World)
    requires Ascending(at, |h|) && |Signatures(h)| == |at|
    requires forall i :: 0 <= i < |at| ==> Signatures(h)[i] == h[at[i]]
    ensures ReportsOn(Report(VerifyEach(h, body, Limited(Signatures(h), max), w), 0 < max < |at|), h, at, body, max, w)
  {
    EachVerdict(h, body, max, w);
  }

  /** The report on a message whose header ends. */
  lemma {:induction false} ReportIs(msg: string, max: int, w: World)
    requires ReadHeader(msg).Header?
    ensures var h := ReadHeader(msg).h;
            ReportsOn(VerifyAll(msg, max, w), h, Places(h, |h|, NamedSignature), ReadHeader(msg).rest, max, w)
  {
    var h, body := ReadHeader(msg).h, ReadHeader(msg).rest;
    SignaturesAreNamed(h);
    VerifyAllIs(msg, max, w);
    EachReported(h, Places(h, |h|, NamedSignature), body, max, w);
  }

  /** There is no report exactly when no empty line ends the header. */
  lemma {:induction false} NoReport(msg: string, max: int, w: World)
    ensures VerifyAll(msg, max, w) == NoHeader <==> !HasEmptyLine(msg)
  {
    FailsWithoutEmptyLine(msg, []);
  }

  // ----- the case of names

  /** The same fields up to the case of their names. */
  predicate SameNames(h: seq<string>, h': seq<string>) {
    |h| == |h'| && forall i :: 0 <= i < |h| ==> EqualFold(Name(h[i]), Name(h'[i]))
  }

  lemma {:induction false} SameFoldedNames(h: seq<string>, h': seq<string>)
    requires SameNames(h, h')
    ensures FoldedNames(h) == FoldedNames(h')
  {
    forall i | 0 <= i < |h| ensures FoldedNames(h)[i] == FoldedNames(h')[i] {
      assert EqualFold(Name(h[i]), Name(h'[i]));
      assert FoldedName(h[i]) == FoldedName(h'[i]);
    }
    assert FoldedNames(h) == FoldedNames(h');
  }

  /** Changing the case of names changes no number of verdicts, and no choice of the picker. */
  lemma {:induction false} CaseOfNames(h: seq<string>, h': seq<string>, keys: seq<string>, j: nat)
    requires SameNames(h, h') && j < |keys|
    ensures |Signatures(h)| == |Signatures(h')| && PickedBy(h, keys, j) == PickedBy(h', keys, j)
  {
    SignaturesCounted(h);
    SignaturesCounted(h');
    SameFoldedNames(h, h');
  }

  /** Neither does the case of the keys. */
  lemma {:induction false} CaseOfKeys(h: seq<string>, keys: seq<string>, keys': seq<string>, alg: Algorithm)
    requires |keys| == |keys'| && forall i :: 0 <= i < |keys| ==> EqualFold(keys[i], keys'[i])
    ensures HashedHeaders(h, keys, alg) == HashedHeaders(h, keys', alg)
  {
    forall i | 0 <= i < |keys| ensures Folded(keys)[i] == Folded(keys')[i] {
      assert EqualFold(keys[i], keys'[i]);
    }
    assert Folded(keys) == Folded(keys');
  }

  /** How many of the keys are this name, and how many of the fields behind `i` have it, whatever the case. */
  function Before(keys: seq<string>, name: string): nat {
    if keys == [] then 0
    else Before(keys[..|keys| - 1], name) + if EqualFold(keys[|keys| - 1], name) then 1 else 0
  }

  function Below(h: seq<string>, name: string): nat {
    if h == [] then 0 else Below(h[..|h| - 1], name) + if EqualFold(Name(h[|h| - 1]), name) then 1 else 0
  }

  lemma {:induction false} BeforeIs(keys: seq<string>, name: string)
    ensures Before(keys, name) == Count(Folded(keys), ToLower(name))
  {
    if keys != [] {
      BeforeIs(keys[..|keys| - 1], name);
      assert Folded(keys)[..|keys| - 1] == Folded(keys[..|keys| - 1]);
    }
  }

  lemma {:induction false} BelowIs(h: seq<string>, name: string)
    ensures Below(h, name) == Count(FoldedNames(h), ToLower(name))
  {
    if h != [] {
      BelowIs(h[..|h| - 1], name);
      assert FoldedNames(h)[..|h| - 1] == FoldedNames(h[..|h| - 1]);
      assert FoldedNames(h)[|h| - 1] == FoldedName(h[|h| - 1]);
    }
  }

  /** The n-th key of a name takes the field of that name that has n - 1 others below it, if there is one. */
  predicate Takes(h: seq<string>, keys: seq<string>, j: nat, i: int)
    requires j < |keys|
  {
    if 0 <= i < |h| then
      EqualFold(Name(h[i]), keys[j]) && Below(h[i + 1..], keys[j]) == Before(keys[..j], keys[j])
    else i == -1 && Before(keys[..j], keys[j]) >= Below(h, keys[j])
  }

  lemma {:induction false} KeySlices(keys: seq<string>, j: nat)
    requires j < |keys|
    ensures Folded(keys)[j] == ToLower(keys[j])
    ensures Count(Folded(keys)[..j], ToLower(keys[j])) == Before(keys[..j], keys[j])
  {
    BeforeIs(keys[..j], keys[j]);
    assert Folded(keys)[..j] == Folded(keys[..j]);
  }

  lemma {:induction false} NameSlices(h: seq<string>, i: nat, name: string)
    requires i < |h|
    ensures FoldedNames(h)[i] == ToLower(Name(h[i]))
    ensures Count(FoldedNames(h)[i + 1..], ToLower(name)) == Below(h[i + 1..], name)
  {
    BelowIs(h[i + 1..], name);
    assert FoldedNames(h)[i + 1..] == FoldedNames(h[i + 1..]);
    assert FoldedNames(h)[i] == FoldedName(h[i]);
  }

  lemma {:induction false} PickedTakes(h: seq<string>, keys: seq<string>, j: nat)
    requires j < |keys|
    ensures Takes(h, keys, j, PickedBy(h, keys, j))
  {
    KeySlices(keys, j);
    BelowIs(h, keys[j]);
    NthCharacterized(FoldedNames(h), ToLower(keys[j]), Before(keys[..j], keys[j]));
    var i := PickedBy(h, keys, j);
    if i >= 0 {
      NameSlices(h, i, keys[j]);
    }
  }

  lemma {:induction false} FoldedSnoc(keys: seq<string>, key: string)
    ensures Folded(keys + [key]) == Folded(keys) + [ToLower(key)] && Folded([]) == []
  {
  }

  lemma {:induction false} HashedAdd(texts: seq<string>, names: seq<string>, keys: seq<string>, key: string)
    requires |texts| == |names|
    ensures Hashed(texts, names, keys + [key])
         == Hashed(texts, names, keys) + Nth(texts, names, key, Count(keys, key))
  {
    assert (keys + [key])[..|keys|] == keys;
  }

  lemma {:induction false} ServedLast(names: seq<string>, keys: seq<string>, key: string)
    ensures ServedBy(names, keys + [key], |keys|) == NthFromEnd(names, key, Count(keys, key))
  {
    assert (keys + [key])[..|keys|] == keys;
  }

  /** The hashed bytes are the canonical forms of the fields taken, in the order of the keys. */
  lemma {:induction false} HashedInOrder(h: seq<string>, keys: seq<string>, key: string, alg: Algorithm)
    ensures var i := PickedBy(h, keys + [key], |keys|);
            HashedHeaders(h, keys + [key], alg)
            == HashedHeaders(h, keys, alg) + if i >= 0 && h[i] != "" then CanonicalHeader(alg, h[i]) else ""
    ensures HashedHeaders(h, [], alg) == ""
  {
    FoldedSnoc(keys, key);
    HashedAdd(Contributions(alg, h), FoldedNames(h), Folded(keys), ToLower(key));
    ServedLast(FoldedNames(h), Folded(keys), ToLower(key));
    NthContribution(h, alg, ToLower(key), Count(Folded(keys), ToLower(key)));
  }
}
