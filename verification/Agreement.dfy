/**
 What `Sign` writes, `Verify` accepts: on a signed message the verifier hashes
 exactly the bytes the signer hashed, and its verdict follows.
 */
module Agreement {
  import opened Text
  import opened Strings
  import opened BodyCanonical
  import opened Header
  import opened HeaderCanonical
  import opened Tags
  import opened TagRoundTrip
  import opened SignatureRemoval
  import opened SignatureLoss
  import opened Picker
  import opened Base64
  import opened Decimal
  import opened Dkim
  import opened Signing
  import opened Verifying
  import opened CleanTags

  // ----- the new field in front of the message

  /** The field that `Sign` prints. */
  function SignedField(params: TagMap, sig: seq<Byte>): string {
    FormatParams(FIELD_NAME, params["b" := Encode(sig)])
  }

  lemma {:induction false} FieldNameIsPlain()
    ensures FIELD_NAME != "" && Trimmed(FIELD_NAME) && ':' !in FIELD_NAME && '=' !in FIELD_NAME
            && NoneOf(FIELD_NAME, IsLineEnd)
  {
  }

  lemma {:induction false} GoodParamsAreClean(params: TagMap, sig: seq<Byte>)
    requires AllGood(params)
    ensures var p := params["b" := Encode(sig)];
            CleanParams(p) && CleanB(p) && SealedKeys(p) && (AllSilent(p) <==> AllSilent(params))
  {
    EncodedIsClean(sig);
    var p := params["b" := Encode(sig)];
    forall k | k in p && k != "b" ensures GoodTag(k, p[k]) {
      assert k in params;
    }
  }

  /** Reading the signed message gives the new field, then the old header and body. */
  lemma {:induction false} SignedMessageReads(params: TagMap, sig: seq<Byte>, msg: string)
    requires AllGood(params) && StartsField(msg) && ReadHeader(msg).Header?
    ensures var f := SignedField(params, sig);
            && ReadHeader(f + msg) == Header([f] + ReadHeader(msg).h, ReadHeader(msg).rest)
            && f != "" && Name(f) == FIELD_NAME
            && var p := params["b" := Encode(sig)];
               ParseParams(ParseField(f).1) == Params(params["b" := PrintedB(p)])
  {
    var p := params["b" := Encode(sig)];
    GoodParamsAreClean(params, sig);
    FieldReads(p, msg);
    FieldParses(p);
    UpdateTwice(params, "b", Encode(sig), PrintedB(p));
  }

  lemma {:induction false} UpdateTwice(m: TagMap, k: string, v: string, w: string)
    ensures m[k := v][k := w] == m[k := w]
  {
  }

  lemma {:induction false} FieldReads(p: TagMap, msg: string)
    requires "b" in p && CleanParams(p) && CleanB(p) && StartsField(msg) && ReadHeader(msg).Header?
    ensures var f := FormatParams(FIELD_NAME, p);
            && ReadHeader(f + msg) == Header([f] + ReadHeader(msg).h, ReadHeader(msg).rest)
            && f != "" && Name(f) == FIELD_NAME
  {
    FieldNameIsPlain();
    FieldTextIsField(p);
    TagListRoundTrip(FIELD_NAME, p, msg);
    FieldTextIsClosed(FIELD_NAME, p);
  }

  lemma {:induction false} FieldParses(p: TagMap)
    requires "b" in p && CleanParams(p) && CleanB(p)
    ensures ParseParams(ParseField(FormatParams(FIELD_NAME, p)).1) == Params(p["b" := PrintedB(p)])
  {
    FieldNameIsPlain();
    FieldTextIsField(p);
    FieldTextParses(FIELD_NAME, p);
  }

  lemma {:induction false} FieldTextIsField(p: TagMap)
    requires "b" in p
    ensures FieldText(FIELD_NAME, p) == FormatParams(FIELD_NAME, p)
  {
    assert FormatParams(FIELD_NAME, p) + "" == FormatParams(FIELD_NAME, p);
  }

  // ----- the hashed header bytes

  /**
   Both sides hash the same text for the new field exactly when the expression
   matches in no tag but `b`, in either canonicalization.
   */
  lemma {:induction false} SameFieldBytes(alg: Algorithm, params: TagMap, sig: seq<Byte>)
    requires AllGood(params)
    ensures TrimRight(CanonicalHeader(alg, RemoveSignature(SignedField(params, sig))), IsLineEnd)
         == TrimRight(CanonicalHeader(alg, FormatParams(FIELD_NAME, params["b" := ""])), IsLineEnd)
         <==> AllSilent(params)
  {
    var p := params["b" := Encode(sig)];
    FieldNameIsPlain();
    GoodParamsAreClean(params, sig);
    EncodedIsClean(sig);
    UpdateTwice(params, "b", Encode(sig), "");
    if alg == Simple {
      RemovalUndoesSigning(FIELD_NAME, p);
    } else {
      SameRelaxed(p);
    }
  }

  lemma {:induction false} SameRelaxed(p: TagMap)
    requires "b" in p && CleanParams(p) && CleanB(p) && SealedKeys(p)
    ensures TrimRight(RelaxHeader(RemoveSignature(FormatParams(FIELD_NAME, p))), IsLineEnd)
         == TrimRight(RelaxHeader(FormatParams(FIELD_NAME, p["b" := ""])), IsLineEnd)
         <==> AllSilent(p)
  {
    var t := FormatTags(OtherKeys(p), p, 0);
    RelaxedForms(p);
    if AllSilent(p) {
      TagsSurvive(OtherKeys(p), p, 0);
    } else {
      SomeTagLoses(p);
      RelaxedDiffers(FIELD_NAME, RemoveSignature(t), t);
    }
  }

  /** What both sides make of the field. */
  lemma {:induction false} RelaxedForms(p: TagMap)
    requires "b" in p && CleanB(p) && SealedKeys(p)
    ensures var t := FormatTags(OtherKeys(p), p, 0);
            && RemoveSignature(FormatParams(FIELD_NAME, p)) == FIELD_NAME + ":" + RemoveSignature(t) + CRLF + " b="
            && TrimRight(RelaxHeader(FormatParams(FIELD_NAME, p["b" := ""])), IsLineEnd)
               == TrimRight(RelaxHeader(FIELD_NAME + ":" + t + CRLF + " b="), IsLineEnd)
            && ':' !in FIELD_NAME
  {
    var t := FormatTags(OtherKeys(p), p, 0);
    FieldNameIsPlain();
    RemovedText(FIELD_NAME, p);
    PrintedUnsigned(FIELD_NAME, p);
    RelaxedEnd(FIELD_NAME, t);
    RelaxedTrims(FIELD_NAME, t);
  }

  lemma {:induction false} SomeTagLoses(p: TagMap)
    requires CleanParams(p) && SealedKeys(p) && !AllSilent(p)
    ensures var t := FormatTags(OtherKeys(p), p, 0); Visible(RemoveSignature(t)) < Visible(t)
  {
    var k :| k in p && k != "b" && !Silent(p[k]);
    assert k in OtherKeys(p);
    TagsLose(OtherKeys(p), p, 0);
  }

  /**
   The verifier hashes the signer's header bytes exactly when the key list does
   not ask for more DKIM-Signature fields than the message had and the expression
   matches in no tag but `b`.
   */
  lemma {:induction false} SameHeaderBytes(alg: Algorithm, h: seq<string>, keys: seq<string>, params: TagMap,
                                           sig: seq<Byte>)
    requires AllGood(params) && SignedField(params, sig) != "" && Name(SignedField(params, sig)) == FIELD_NAME
    ensures var f := SignedField(params, sig);
            HashedHeaders([f] + h, keys, alg) + TrimRight(CanonicalHeader(alg, RemoveSignature(f)), IsLineEnd)
            == SignedHeaderBytes(alg, h, keys, params)
            <==> Asked(keys, FIELD_NAME) <= Occurs(h, FIELD_NAME) && AllSilent(params)
  {
    var f := SignedField(params, sig);
    var x, y := TrimRight(CanonicalHeader(alg, RemoveSignature(f)), IsLineEnd),
                TrimRight(CanonicalHeader(alg, FormatParams(FIELD_NAME, params["b" := ""])), IsLineEnd);
    if Asked(keys, FIELD_NAME) <= Occurs(h, FIELD_NAME) {
      SameFieldBytes(alg, params, sig);
      PrependedKeepsBytesExactly(h, f, keys, alg);
      Cancel(x, y, HashedHeaders(h, keys, alg));
    } else {
      PrependedGrowsBytes(h, f, keys, alg);
      SignedFieldIsLonger(alg, params, sig);
      Longer(HashedHeaders([f] + h, keys, alg), x, HashedHeaders(h, keys, alg), y, |CanonicalHeader(alg, f)|);
    }
  }

  lemma {:induction false} SignedFieldIsLonger(alg: Algorithm, params: TagMap, sig: seq<Byte>)
    ensures |CanonicalHeader(alg, SignedField(params, sig))|
          > |TrimRight(CanonicalHeader(alg, FormatParams(FIELD_NAME, params["b" := ""])), IsLineEnd)|
  {
    FieldNameIsPlain();
    FieldIsLonger(alg, FIELD_NAME, params["b" := Encode(sig)]);
    UpdateTwice(params, "b", Encode(sig), "");
  }

  lemma {:induction false} Longer(a: string, x: string, b: string, y: string, n: nat)
    requires |a| == |b| + n && n > |y|
    ensures a + x != b + y
  {
    assert |a + x| > |b + y|;
  }

  // ----- the verifier's checks on a signed field

  /** `q` has the tags `r` and a `b` that stands for the signature. */
  ghost predicate AddsB(q: TagMap, r: TagMap, sig: seq<Byte>) {
    && q.Keys == r.Keys + {"b"}
    && (forall k :: k in r ==> q[k] == r[k])
    && StripWhitespace(q["b"]) == Encode(sig)
  }

  /** The tags of a signed field, as the verifier parses them. */
  ghost predicate SignedTags(q: TagMap, o: Options, keys: seq<string>, bodyHash: Digest, now: int, sig: seq<Byte>)
    requires Acceptable(o)
  {
    AddsB(q, SignParams(o, keys, bodyHash, now), sig)
  }

  lemma {:induction false} SignedTagsAt(q: TagMap, o: Options, keys: seq<string>, bodyHash: Digest, now: int,
                                        sig: seq<Byte>)
    requires Acceptable(o) && SignedTags(q, o, keys, bodyHash, now, sig)
    ensures HasRequiredTags(q) && "t" in q && "c" in q && "l" !in q
    ensures q["v"] == "1" && q["d"] == o.domain && q["s"] == o.selector && q["h"] == FormatTagList(keys)
    ensures q["a"] == KeyAlgoName(o) + "-" + "sha256" && q["bh"] == Encode(bodyHash) && q["t"] == FormatInt(now / NANOS)
    ensures q["c"] == NameOf(Chosen(o.headerCan).value) + "/" + NameOf(Chosen(o.bodyCan).value)
    ensures ("i" in q <==> o.identifier != "") && ("i" in q ==> q["i"] == o.identifier)
    ensures ("q" in q <==> o.queryMethods.Some?) && ("q" in q ==> q["q"] == FormatTagList(o.queryMethods.value))
    ensures ("x" in q <==> o.expiration.Some?) && ("x" in q ==> q["x"] == FormatInt(o.expiration.value))
  {
    RequiredTagsAt(q, o, keys, bodyHash, now, sig);
    OptionalTagsAt(q, o, keys, bodyHash, now, sig);
  }

  lemma {:induction false} TagIsSigned(q: TagMap, o: Options, keys: seq<string>, bodyHash: Digest, now: int,
                                       sig: seq<Byte>, k: string)
    requires Acceptable(o) && SignedTags(q, o, keys, bodyHash, now, sig)
    requires k in RequiredParams(o, keys, bodyHash, now)
    ensures k in q && q[k] == RequiredParams(o, keys, bodyHash, now)[k]
  {
    SignParamsTags(o, keys, bodyHash, now);
  }

  lemma {:induction false} RequiredTagsAt(q: TagMap, o: Options, keys: seq<string>, bodyHash: Digest, now: int,
                                          sig: seq<Byte>)
    requires Acceptable(o) && SignedTags(q, o, keys, bodyHash, now, sig)
    ensures HasRequiredTags(q) && "t" in q && "c" in q
    ensures q["v"] == "1" && q["d"] == o.domain && q["s"] == o.selector && q["h"] == FormatTagList(keys)
    ensures q["a"] == KeyAlgoName(o) + "-" + "sha256" && q["bh"] == Encode(bodyHash) && q["t"] == FormatInt(now / NANOS)
    ensures q["c"] == NameOf(Chosen(o.headerCan).value) + "/" + NameOf(Chosen(o.bodyCan).value)
  {
    RequiredAt(o, keys, bodyHash, now);
    TagIsSigned(q, o, keys, bodyHash, now, sig, "v");
    TagIsSigned(q, o, keys, bodyHash, now, sig, "d");
    TagIsSigned(q, o, keys, bodyHash, now, sig, "s");
    TagIsSigned(q, o, keys, bodyHash, now, sig, "h");
    TagIsSigned(q, o, keys, bodyHash, now, sig, "a");
    TagIsSigned(q, o, keys, bodyHash, now, sig, "bh");
    TagIsSigned(q, o, keys, bodyHash, now, sig, "t");
    TagIsSigned(q, o, keys, bodyHash, now, sig, "c");
  }

  lemma {:induction false} OptionalTagsAt(q: TagMap, o: Options, keys: seq<string>, bodyHash: Digest, now: int,
                                          sig: seq<Byte>)
    requires Acceptable(o) && SignedTags(q, o, keys, bodyHash, now, sig)
    ensures "l" !in q
    ensures ("i" in q <==> o.identifier != "") && ("i" in q ==> q["i"] == o.identifier)
    ensures ("q" in q <==> o.queryMethods.Some?) && ("q" in q ==> q["q"] == FormatTagList(o.queryMethods.value))
    ensures ("x" in q <==> o.expiration.Some?) && ("x" in q ==> q["x"] == FormatInt(o.expiration.value))
  {
    assert var p := RequiredParams(o, keys, bodyHash, now); "i" !in p && "q" !in p && "x" !in p && "l" !in p by {
      RequiredAt(o, keys, bodyHash, now);
    }
    SignParamsTags(o, keys, bodyHash, now);
    OptionalOf(q, SignParams(o, keys, bodyHash, now), o, RequiredParams(o, keys, bodyHash, now), sig);
  }

  lemma {:induction false} OptionalOf(q: TagMap, r: TagMap, o: Options, p: TagMap, sig: seq<Byte>)
    requires AddsB(q, r, sig) && OptionalTags(o, p, r)
    requires "i" !in p && "q" !in p && "x" !in p && "l" !in p
    ensures "l" !in q
    ensures ("i" in q <==> o.identifier != "") && ("i" in q ==> q["i"] == o.identifier)
    ensures ("q" in q <==> o.queryMethods.Some?) && ("q" in q ==> q["q"] == FormatTagList(o.queryMethods.value))
    ensures ("x" in q <==> o.expiration.Some?) && ("x" in q ==> q["x"] == FormatInt(o.expiration.value))
  {
    assert "i" in q <==> "i" in r;
    assert "q" in q <==> "q" in r;
    assert "x" in q <==> "x" in r;
    assert "l" in q <==> "l" in r;
  }

  lemma {:induction false} KeysComeBack(keys: seq<string>)
    requires GoodKeys(keys)
    ensures ParseTagList(FormatTagList(keys)) == if keys == [] then [""] else keys
  {
    if keys == [] {
      SplitOnly("", ':');
      assert Stripped([""]) == [StripWhitespace("")] + Stripped([""][1..]);
    } else {
      SplitJoin(keys, ':');
      StrippedIsSame(keys);
    }
  }

  lemma {:induction false} StrippedIsSame(keys: seq<string>)
    requires forall i :: 0 <= i < |keys| ==> NoneOf(keys[i], IsSpace)
    ensures Stripped(keys) == keys
  {
    if keys != [] {
      StripClean(keys[0]);
      StrippedIsSame(keys[1..]);
    }
  }

  lemma {:induction false} FromComesBack(keys: seq<string>)
    requires GoodKeys(keys)
    ensures ListsFrom(ParseTagList(FormatTagList(keys))) <==> ListsFrom(keys)
  {
    KeysComeBack(keys);
    assert !EqualFold("", "From");
  }

  /** What the published key and the clock must allow. */
  predicate RecordFits(o: Options, record: KeyRecord) {
    Allows(record.hashAlgos, "sha256") && record.keyAlgo == KeyAlgoName(o) && Allows(record.services, "email")
  }

  predicate OptionsQueryDns(o: Options) {
    o.queryMethods.Some? ==> "dns/txt" in ParseTagList(FormatTagList(o.queryMethods.value))
  }

  /** The signer's options, the clock and the published key together let a signature through. */
  predicate Admits(o: Options, keys: seq<string>, w: World) {
    && ListsFrom(keys)
    && (o.identifier != "" ==> InDomain(StripWhitespace(o.identifier), StripWhitespace(o.domain)))
    && NotExpired(o, w)
    && OptionsQueryDns(o)
    && w.lookup(StripWhitespace(o.domain), StripWhitespace(o.selector)).Found?
    && RecordFits(o, PublishedKey(o, w))
  }

  function PublishedKey(o: Options, w: World): KeyRecord
    requires w.lookup(StripWhitespace(o.domain), StripWhitespace(o.selector)).Found?
  {
    w.lookup(StripWhitespace(o.domain), StripWhitespace(o.selector)).record
  }

  /** What the verifier reports about an admitted signature. */
  function Reported(o: Options, keys: seq<string>, now: int, sig: seq<Byte>): Verification {
    var domain, b := StripWhitespace(o.domain), Encode(sig);
    Verification(domain, StripWhitespace(o.selector), if |b| > 8 then b[..8] else b,
                 if o.identifier != "" then StripWhitespace(o.identifier) else "@" + domain,
                 keys, Some(now / NANOS), o.expiration, Pass)
  }

  function ExpectedPlan(o: Options, v: Verification, record: KeyRecord, bodyHash: Digest, sig: seq<Byte>): Plan
    requires Acceptable(o)
  {
    Plan(v, record, Chosen(o.headerCan).value, Chosen(o.bodyCan).value, bodyHash, sig)
  }

  lemma {:induction false} CanonicalizationComesBack(a: Algorithm, b: Algorithm)
    ensures var c := ParseCanonicalization(NameOf(a) + "/" + NameOf(b));
            AlgorithmOf(c.0) == Some(a) && AlgorithmOf(c.1) == Some(b)
  {
    var s := NameOf(a) + "/" + NameOf(b);
    NoSpaceInNames(a, b);
    StripClean(s);
    SlashlessName(a);
    CutAt(NameOf(a), '/', NameOf(b));
  }

  lemma {:induction false} NoSpaceInNames(a: Algorithm, b: Algorithm)
    ensures NoneOf(NameOf(a) + "/" + NameOf(b), IsSpace)
  {
    assert NoneOf(NameOf(a), IsSpace) && NoneOf(NameOf(b), IsSpace) && NoneOf("/", IsSpace);
  }

  lemma {:induction false} SlashlessName(a: Algorithm)
    ensures '/' !in NameOf(a)
  {
  }

  lemma {:induction false} CanonicalizationCheck(q: TagMap, o: Options, keys: seq<string>, bodyHash: Digest, now: int,
                                                 sig: seq<Byte>, v: Verification, record: KeyRecord)
    requires Acceptable(o) && SignedTags(q, o, keys, bodyHash, now, sig)
    ensures CheckCanonicalization(q, v, record) == Go(ExpectedPlan(o, v, record, bodyHash, sig))
  {
    SignedTagsAt(q, o, keys, bodyHash, now, sig);
    CanonicalizationComesBack(Chosen(o.headerCan).value, Chosen(o.bodyCan).value);
    EncodedIsClean(bodyHash);
    StripClean(Encode(bodyHash));
    DecodeEncode(bodyHash);
    DecodeEncode(sig);
  }

  lemma {:induction false} AlgorithmComesBack(o: Options)
    requires Acceptable(o)
    ensures Cut(StripWhitespace(KeyAlgoName(o) + "-" + "sha256"), '-') == CutResult(KeyAlgoName(o), "sha256", true)
  {
    NamesAreClean(o);
    StripClean(KeyAlgoName(o) + "-" + "sha256");
    CutAt(KeyAlgoName(o), '-', "sha256");
  }

  lemma {:induction false} AlgorithmCheck(q: TagMap, o: Options, keys: seq<string>, bodyHash: Digest, now: int,
                                          sig: seq<Byte>, v: Verification, record: KeyRecord)
    requires Acceptable(o) && SignedTags(q, o, keys, bodyHash, now, sig)
    ensures var r := CheckAlgorithms(q, v, record);
            if RecordFits(o, record) then r == Go(ExpectedPlan(o, v, record, bodyHash, sig))
            else r.Stop? && r.verif.err != Pass
  {
    SignedTagsAt(q, o, keys, bodyHash, now, sig);
    AlgorithmComesBack(o);
    CanonicalizationCheck(q, o, keys, bodyHash, now, sig, v, record);
  }

  lemma {:induction false} RecordCheck(q: TagMap, o: Options, keys: seq<string>, bodyHash: Digest, now: int,
                                       sig: seq<Byte>, v: Verification, w: World)
    requires Acceptable(o) && SignedTags(q, o, keys, bodyHash, now, sig)
    requires v.domain == StripWhitespace(o.domain)
    ensures var r, found := CheckRecord(q, v, w), w.lookup(StripWhitespace(o.domain), StripWhitespace(o.selector));
            if OptionsQueryDns(o) && found.Found? && RecordFits(o, found.record)
            then r == Go(ExpectedPlan(o, v, found.record, bodyHash, sig)) else r.Stop? && r.verif.err != Pass
  {
    SignedTagsAt(q, o, keys, bodyHash, now, sig);
    var found := w.lookup(StripWhitespace(o.domain), StripWhitespace(o.selector));
    if found.Found? {
      AlgorithmCheck(q, o, keys, bodyHash, now, sig, v, found.record);
    }
  }

  lemma {:induction false} TimeComesBack(n: int)
    requires IsInt64(n)
    ensures ParseTime(FormatInt(n)) == Some(n)
  {
    NumberIsClean(n);
    StripClean(FormatInt(n));
    ParseFormatInt(n);
  }

  predicate NotExpired(o: Options, w: World) {
    o.expiration.Some? ==> w.now <= o.expiration.value * NANOS
  }

  lemma {:induction false} TimeCheck(q: TagMap, o: Options, keys: seq<string>, bodyHash: Digest, now: int,
                                     sig: seq<Byte>, v: Verification, w: World)
    requires Acceptable(o) && SignedTags(q, o, keys, bodyHash, now, sig)
    requires IsInt64(now / NANOS) && (o.expiration.Some? ==> IsInt64(o.expiration.value))
    requires v.expiration == None
    ensures var r := CheckTime(q, v, w);
            if NotExpired(o, w) then r == CheckRecord(q, v.(time := Some(now / NANOS), expiration := o.expiration), w)
            else r.Stop? && r.verif.err != Pass
  {
    SignedTagsAt(q, o, keys, bodyHash, now, sig);
    TimeComesBack(now / NANOS);
    if o.expiration.Some? {
      TimeComesBack(o.expiration.value);
    }
  }

  lemma {:induction false} KeyCheck(q: TagMap, o: Options, keys: seq<string>, bodyHash: Digest, now: int,
                                    sig: seq<Byte>, v: Verification, w: World)
    requires Acceptable(o) && SignedTags(q, o, keys, bodyHash, now, sig) && GoodKeys(keys)
    ensures var r := CheckKeys(q, v, w);
            if ListsFrom(keys) then r == CheckTime(q, v.(headerKeys := keys), w) else r.Stop? && r.verif.err != Pass
  {
    SignedTagsAt(q, o, keys, bodyHash, now, sig);
    FromComesBack(keys);
    KeysComeBack(keys);
  }

  /** `Reported` before the keys have been looked at. */
  function Begun(o: Options, sig: seq<Byte>): Verification {
    Reported(o, [], 0, sig).(time := None, expiration := None)
  }

  lemma {:induction false} IdentifierCheck(q: TagMap, o: Options, keys: seq<string>, bodyHash: Digest, now: int,
                                           sig: seq<Byte>, w: World)
    requires Acceptable(o) && SignedTags(q, o, keys, bodyHash, now, sig)
    ensures var r := CheckTags(q, w);
            if o.identifier != "" ==> InDomain(StripWhitespace(o.identifier), StripWhitespace(o.domain))
            then r == CheckKeys(q, Begun(o, sig), w) else r.Stop? && r.verif.err != Pass
  {
    SignedTagsAt(q, o, keys, bodyHash, now, sig);
  }

  /** The verifier's checks let a signed field through exactly when it is admitted, with the signer's own settings. */
  lemma {:induction false} TagChecks(q: TagMap, o: Options, keys: seq<string>, bodyHash: Digest, now: int,
                                     sig: seq<Byte>, w: World)
    requires Acceptable(o) && SignedTags(q, o, keys, bodyHash, now, sig) && GoodOptions(o, keys, now)
    ensures var r := CheckTags(q, w);
            if Admits(o, keys, w)
            then r == Go(ExpectedPlan(o, Reported(o, keys, now, sig), PublishedKey(o, w), bodyHash, sig))
            else r.Stop? && r.verif.err != Pass
  {
    IdentifierCheck(q, o, keys, bodyHash, now, sig, w);
    KeyCheck(q, o, keys, bodyHash, now, sig, Begun(o, sig), w);
    TimeCheck(q, o, keys, bodyHash, now, sig, Begun(o, sig).(headerKeys := keys), w);
    RecordCheck(q, o, keys, bodyHash, now, sig, Reported(o, keys, now, sig), w);
  }

  lemma {:induction false} ParsedTagsAreSigned(o: Options, keys: seq<string>, bodyHash: Digest, now: int,
                                               sig: seq<Byte>)
    requires Acceptable(o)
    ensures var params := SignParams(o, keys, bodyHash, now);
            SignedTags(params["b" := PrintedB(params["b" := Encode(sig)])], o, keys, bodyHash, now, sig)
  {
    var params := SignParams(o, keys, bodyHash, now);
    var p := params["b" := Encode(sig)];
    assert "b" !in params;
    PrintedBStrips(p);
    EncodedIsClean(sig);
    StripClean(Encode(sig));
  }

  // ----- the main results

  /** `Sign` succeeded on a message whose options and header survive printing. */
  ghost predicate SignedWell(msg: string, o: Options, crypto: Crypto, now: int) {
    && SignMessage(msg, o, crypto, now).Signed?
    && StartsField(msg)
    && GoodOptions(o, HeaderKeys(o, ReadHeader(msg).h), now)
  }

  /** The tags that were printed. */
  function SignedParams(msg: string, o: Options, crypto: Crypto, now: int): TagMap
    requires SignMessage(msg, o, crypto, now).Signed?
  {
    SignParams(o, HeaderKeys(o, ReadHeader(msg).h), crypto.hash(SignMessage(msg, o, crypto, now).bodyBytes), now)
  }

  /** The signature that was made. */
  function Signature(msg: string, o: Options, crypto: Crypto, now: int): seq<Byte>
    requires SignMessage(msg, o, crypto, now).Signed?
  {
    crypto.sign(crypto.hash(SignMessage(msg, o, crypto, now).headerBytes)).value
  }

  lemma {:induction false} SignedIs(msg: string, o: Options, crypto: Crypto, now: int)
    requires SignMessage(msg, o, crypto, now).Signed?
    ensures var s, read := SignMessage(msg, o, crypto, now), ReadHeader(msg);
            && Acceptable(o) && read.Header?
            && s.bodyBytes == Canonical(Chosen(o.bodyCan).value, read.rest)
            && s.headerBytes == SignedHeaderBytes(Chosen(o.headerCan).value, read.h, HeaderKeys(o, read.h),
                                                  SignedParams(msg, o, crypto, now))
            && s.field == SignedField(SignedParams(msg, o, crypto, now), Signature(msg, o, crypto, now))
  {
  }

  /** The signed message reads as the new field, the old header and the old body. */
  lemma {:induction false} SignedReads(msg: string, o: Options, crypto: Crypto, now: int)
    requires SignedWell(msg, o, crypto, now)
    ensures var f := SignMessage(msg, o, crypto, now).field;
            && AllGood(SignedParams(msg, o, crypto, now))
            && ReadHeader(msg).Header? && ReadHeader(f + msg) == Header([f] + ReadHeader(msg).h, ReadHeader(msg).rest)
            && f != "" && Name(f) == FIELD_NAME
  {
    SignedIs(msg, o, crypto, now);
    SignParamsAreGood(o, HeaderKeys(o, ReadHeader(msg).h),
                      crypto.hash(SignMessage(msg, o, crypto, now).bodyBytes), now);
    SignedMessageReads(SignedParams(msg, o, crypto, now), Signature(msg, o, crypto, now), msg);
  }

  /** The plan that the verifier follows for an admitted signature. */
  function SignersPlan(msg: string, o: Options, crypto: Crypto, now: int, w: World): Plan
    requires SignMessage(msg, o, crypto, now).Signed? && Admits(o, HeaderKeys(o, ReadHeader(msg).h), w)
  {
    ExpectedPlan(o, Reported(o, HeaderKeys(o, ReadHeader(msg).h), now, Signature(msg, o, crypto, now)),
                 PublishedKey(o, w),
                 crypto.hash(SignMessage(msg, o, crypto, now).bodyBytes), Signature(msg, o, crypto, now))
  }

  /**
   The verifier gets as far as hashing exactly when the signature is admitted,
   and then with the signer's own settings.
   */
  lemma {:induction false} PreparedForSigned(msg: string, o: Options, crypto: Crypto, now: int, w: World)
    requires SignedWell(msg, o, crypto, now)
    ensures var r := Prepare(ParseField(SignMessage(msg, o, crypto, now).field).1, w);
            if Admits(o, HeaderKeys(o, ReadHeader(msg).h), w) then r == Go(SignersPlan(msg, o, crypto, now, w))
            else r.Stop? && r.verif.err != Pass
  {
    SignedIs(msg, o, crypto, now);
    SignedReads(msg, o, crypto, now);
    var keys, bodyHash := HeaderKeys(o, ReadHeader(msg).h), crypto.hash(SignMessage(msg, o, crypto, now).bodyBytes);
    var params, sig := SignedParams(msg, o, crypto, now), Signature(msg, o, crypto, now);
    var q := params["b" := PrintedB(params["b" := Encode(sig)])];
    SignedMessageReads(params, sig, msg);
    ParsedTagsAreSigned(o, keys, bodyHash, now, sig);
    SignedTagsAt(q, o, keys, bodyHash, now, sig);
    TagChecks(q, o, keys, bodyHash, now, sig, w);
  }

  /** The key list asks for no more DKIM-Signature fields than the message had. */
  predicate NotOverListed(o: Options, h: seq<string>) {
    Asked(HeaderKeys(o, h), FIELD_NAME) <= Occurs(h, FIELD_NAME)
  }

  /** The verifier gets as far as hashing the body of the signed message, and hashes the signer's bytes. */
  predicate BodyBytesAgree(msg: string, o: Options, crypto: Crypto, now: int, w: World)
    requires SignMessage(msg, o, crypto, now).Signed?
  {
    var s := SignMessage(msg, o, crypto, now);
    var prepared, read := Prepare(ParseField(s.field).1, w), ReadHeader(s.field + msg);
    prepared.Go? && read.Header? && Canonical(prepared.plan.bodyCan, read.rest) == s.bodyBytes
  }

  /** The verifier gets as far as hashing the header of the signed message, and hashes the signer's bytes. */
  predicate HeaderBytesAgree(msg: string, o: Options, crypto: Crypto, now: int, w: World)
    requires SignMessage(msg, o, crypto, now).Signed?
  {
    var s := SignMessage(msg, o, crypto, now);
    var prepared, read := Prepare(ParseField(s.field).1, w), ReadHeader(s.field + msg);
    prepared.Go? && read.Header? && VerifiedHeaderBytes(prepared.plan, read.h, s.field) == s.headerBytes
  }

  /**
   The bytes hashed by the verifier on the signed message, for the body and for
   the header, are those the signer hashed; for the header exactly when the key
   list does not ask for more DKIM-Signature fields than the message had and the
   expression that removes the signature matches in no other tag.
   */
  lemma {:induction false} HashedBytesAgree(msg: string, o: Options, crypto: Crypto, now: int, w: World)
    requires SignedWell(msg, o, crypto, now) && Admits(o, HeaderKeys(o, ReadHeader(msg).h), w)
    ensures BodyBytesAgree(msg, o, crypto, now, w)
    ensures HeaderBytesAgree(msg, o, crypto, now, w)
            <==> NotOverListed(o, ReadHeader(msg).h) && SilentOptions(o, HeaderKeys(o, ReadHeader(msg).h))
  {
    PreparedForSigned(msg, o, crypto, now, w);
    SignedIs(msg, o, crypto, now);
    SignedReads(msg, o, crypto, now);
    SignParamsAreSilent(o, HeaderKeys(o, ReadHeader(msg).h),
                        crypto.hash(SignMessage(msg, o, crypto, now).bodyBytes), now);
    SameHeaderBytes(Chosen(o.headerCan).value, ReadHeader(msg).h, HeaderKeys(o, ReadHeader(msg).h),
                    SignedParams(msg, o, crypto, now), Signature(msg, o, crypto, now));
  }

  /** The published key accepts the signature that was made, for the given header bytes. */
  predicate KeyAccepts(msg: string, o: Options, crypto: Crypto, now: int, w: World, headerBytes: string)
    requires SignMessage(msg, o, crypto, now).Signed? && Admits(o, HeaderKeys(o, ReadHeader(msg).h), w)
  {
    PublishedKey(o, w).verifies(crypto.hash(headerBytes), Signature(msg, o, crypto, now))
  }

  /** The bytes that the verifier hashes for the header of the signed message. */
  function SeenHeaderBytes(msg: string, o: Options, crypto: Crypto, now: int, w: World): string
    requires SignMessage(msg, o, crypto, now).Signed? && Admits(o, HeaderKeys(o, ReadHeader(msg).h), w)
  {
    var f := SignMessage(msg, o, crypto, now).field;
    VerifiedHeaderBytes(SignersPlan(msg, o, crypto, now, w), [f] + ReadHeader(msg).h, f)
  }

  /** The first of the verifications passes exactly when it should, and then reports the signer's data. */
  predicate FirstVerdict(report: Report, passes: bool, expected: Verification) {
    && report.Report? && report.verifications != []
    && var v := report.verifications[0];
       (v.err == Pass <==> passes) && (v.err == Pass ==> v == expected)
  }

  /** The signature is admitted, and the published key accepts it for the header bytes that the verifier hashes. */
  predicate Accepted(msg: string, o: Options, crypto: Crypto, now: int, w: World)
    requires SignMessage(msg, o, crypto, now).Signed?
  {
    && Admits(o, HeaderKeys(o, ReadHeader(msg).h), w)
    && KeyAccepts(msg, o, crypto, now, w, SeenHeaderBytes(msg, o, crypto, now, w))
  }

  /** The first verdict on the signed message passes exactly when `passes`, and then reports the signer's data. */
  predicate NewVerdict(msg: string, o: Options, crypto: Crypto, now: int, max: int, w: World, passes: bool)
    requires SignMessage(msg, o, crypto, now).Signed?
  {
    FirstVerdict(VerifyAll(SignMessage(msg, o, crypto, now).field + msg, max, w), passes,
                 Reported(o, HeaderKeys(o, ReadHeader(msg).h), now, Signature(msg, o, crypto, now)))
  }

  /**
   The first verification reported for a signed message is the new signature's,
   whatever the options. It passes exactly when the signature is admitted and the
   published key accepts it for the bytes the verifier hashes, and then it
   reports the signer's domain, selector and keys.
   */
  lemma {:induction false} SignThenVerify(msg: string, o: Options, crypto: Crypto, now: int, max: int, w: World)
    requires SignedWell(msg, o, crypto, now) && w.hash == crypto.hash
    ensures NewVerdict(msg, o, crypto, now, max, w, Accepted(msg, o, crypto, now, w))
  {
    var s, read := SignMessage(msg, o, crypto, now), ReadHeader(msg);
    SignedIs(msg, o, crypto, now);
    SignedReads(msg, o, crypto, now);
    NewSignatureIsFirst(s.field, read.h, read.rest, max, w);
    PreparedForSigned(msg, o, crypto, now, w);
  }

  /** The bytes the verifier hashes for the header are the signer's under the two conditions of `HashedBytesAgree`. */
  lemma {:induction false} SeenIsSigned(msg: string, o: Options, crypto: Crypto, now: int, w: World)
    requires SignedWell(msg, o, crypto, now) && Admits(o, HeaderKeys(o, ReadHeader(msg).h), w)
    ensures SeenHeaderBytes(msg, o, crypto, now, w) == SignMessage(msg, o, crypto, now).headerBytes
            <==> NotOverListed(o, ReadHeader(msg).h) && SilentOptions(o, HeaderKeys(o, ReadHeader(msg).h))
  {
    HashedBytesAgree(msg, o, crypto, now, w);
    PreparedForSigned(msg, o, crypto, now, w);
    SignedReads(msg, o, crypto, now);
  }

  /**
   When DKIM-Signature is not over-listed and the expression matches in no text
   of the options, the verdict is the key's on the very bytes that were signed.
   */
  lemma {:induction false} SignedBytesDecide(msg: string, o: Options, crypto: Crypto, now: int, max: int, w: World)
    requires SignedWell(msg, o, crypto, now) && w.hash == crypto.hash
    requires NotOverListed(o, ReadHeader(msg).h) && SilentOptions(o, HeaderKeys(o, ReadHeader(msg).h))
    ensures NewVerdict(msg, o, crypto, now, max, w,
                       Admits(o, HeaderKeys(o, ReadHeader(msg).h), w)
                       && KeyAccepts(msg, o, crypto, now, w, SignMessage(msg, o, crypto, now).headerBytes))
  {
    SignThenVerify(msg, o, crypto, now, max, w);
    if Admits(o, HeaderKeys(o, ReadHeader(msg).h), w) {
      SeenIsSigned(msg, o, crypto, now, w);
    }
  }

  /**
   The published key belongs to the signer: it accepts the signature for the
   signed bytes, and not for the verifier's if those are others.
   */
  predicate KeyMatches(msg: string, o: Options, crypto: Crypto, now: int, w: World)
    requires SignMessage(msg, o, crypto, now).Signed?
  {
    Admits(o, HeaderKeys(o, ReadHeader(msg).h), w) ==>
      var signed, seen := SignMessage(msg, o, crypto, now).headerBytes, SeenHeaderBytes(msg, o, crypto, now, w);
      KeyAccepts(msg, o, crypto, now, w, signed) && (seen != signed ==> !KeyAccepts(msg, o, crypto, now, w, seen))
  }

  /** With the signer's key, a signed message passes exactly under these conditions on options, header and clock. */
  lemma {:induction false} OwnSignaturePassesExactly(msg: string, o: Options, crypto: Crypto, now: int, max: int,
                                                     w: World)
    requires SignedWell(msg, o, crypto, now) && w.hash == crypto.hash && KeyMatches(msg, o, crypto, now, w)
    ensures NewVerdict(msg, o, crypto, now, max, w,
                       && Admits(o, HeaderKeys(o, ReadHeader(msg).h), w)
                       && NotOverListed(o, ReadHeader(msg).h)
                       && SilentOptions(o, HeaderKeys(o, ReadHeader(msg).h)))
  {
    SignThenVerify(msg, o, crypto, now, max, w);
    if Admits(o, HeaderKeys(o, ReadHeader(msg).h), w) {
      SeenIsSigned(msg, o, crypto, now, w);
    }
  }

  lemma {:induction false} NewSignatureIsFirst(f: string, h: seq<string>, body: string, max: int, w: World)
    requires Name(f) == FIELD_NAME
    ensures var vs := VerifyEach([f] + h, body, Limited(Signatures([f] + h), max), w);
            vs != [] && vs[0] == VerifyOne([f] + h, body, f, w)
  {
    assert ([f] + h)[1..] == h;
    assert Signatures([f] + h) == [f] + Signatures(h);
    VerifyEachAt([f] + h, body, Limited([f] + Signatures(h), max), w, 0);
  }

  lemma {:induction false} SameConclusion(plan: Plan, f: string, h: seq<string>, sigField: string, bodyBytes: string,
                                          w: World)
    requires f != "" && Name(f) == FIELD_NAME
    requires Asked(plan.verif.headerKeys, FIELD_NAME) <= Occurs(h, FIELD_NAME)
    ensures Conclude(plan, [f] + h, sigField, bodyBytes, w) == Conclude(plan, h, sigField, bodyBytes, w)
  {
    SameHeadersBytes(plan, f, h, sigField);
  }

  lemma {:induction false} SameHeadersBytes(plan: Plan, f: string, h: seq<string>, sigField: string)
    requires f != "" && Name(f) == FIELD_NAME
    requires Asked(plan.verif.headerKeys, FIELD_NAME) <= Occurs(h, FIELD_NAME)
    ensures VerifiedHeaderBytes(plan, [f] + h, sigField) == VerifiedHeaderBytes(plan, h, sigField)
  {
    PrependedKeepsBytesExactly(h, f, plan.verif.headerKeys, plan.headerCan);
  }

  /** A signature that asks for no more DKIM-Signature fields than `h` has, if it gets as far as hashing. */
  predicate SparesNewFields(h: seq<string>, sigField: string, w: World) {
    var r := Prepare(ParseField(sigField).1, w);
    r.Go? ==> Asked(r.plan.verif.headerKeys, FIELD_NAME) <= Occurs(h, FIELD_NAME)
  }

  /** Signing keeps the verdict on a signature that does not ask for more DKIM-Signature fields than there were. */
  lemma {:induction false} EarlierVerdictsStand(f: string, h: seq<string>, body: string, sigField: string, w: World)
    requires f != "" && Name(f) == FIELD_NAME
    requires SparesNewFields(h, sigField, w)
    ensures VerifyOne([f] + h, body, sigField, w) == VerifyOne(h, body, sigField, w)
  {
    match Prepare(ParseField(sigField).1, w)
    case Stop(_) =>
    case Go(plan) => SameConclusion(plan, f, h, sigField, Canonical(plan.bodyCan, body), w);
  }

  /** No signature among `sigs` that gets as far as hashing asks for more DKIM-Signature fields than `h` has. */
  ghost predicate NoneOverLists(h: seq<string>, sigs: seq<string>, w: World) {
    forall i :: 0 <= i < |sigs| ==> SparesNewFields(h, sigs[i], w)
  }

  lemma {:induction false} VerdictsStand(f: string, h: seq<string>, body: string, sigs: seq<string>, w: World)
    requires f != "" && Name(f) == FIELD_NAME && NoneOverLists(h, sigs, w)
    ensures VerifyEach([f] + h, body, sigs, w) == VerifyEach(h, body, sigs, w)
  {
    if sigs != [] {
      assert SparesNewFields(h, sigs[0], w);
      EarlierVerdictsStand(f, h, body, sigs[0], w);
      assert forall i :: 0 <= i < |sigs[1..]| ==> sigs[1..][i] == sigs[i + 1];
      VerdictsStand(f, h, body, sigs[1..], w);
    }
  }

  /** Prepending a signature puts its verdict in front of the earlier ones, and changes none of them. */
  lemma {:induction false} ReportGrows(f: string, h: seq<string>, body: string, w: World)
    requires f != "" && Name(f) == FIELD_NAME && NoneOverLists(h, Signatures(h), w)
    ensures VerifyEach([f] + h, body, Signatures([f] + h), w)
         == [VerifyOne([f] + h, body, f, w)] + VerifyEach(h, body, Signatures(h), w)
  {
    VerdictsStand(f, h, body, Signatures(h), w);
    assert ([f] + h)[1..] == h;
    assert Signatures([f] + h) == [f] + Signatures(h) && ([f] + Signatures(h))[1..] == Signatures(h);
  }

  /** Verifying a signed message reports one more verdict, at the front, than verifying the message. */
  lemma {:induction false} SigningAddsOneVerdict(msg: string, o: Options, crypto: Crypto, now: int, w: World)
    requires SignedWell(msg, o, crypto, now)
    requires NoneOverLists(ReadHeader(msg).h, Signatures(ReadHeader(msg).h), w)
    ensures var before, after := VerifyAll(msg, 0, w), VerifyAll(SignMessage(msg, o, crypto, now).field + msg, 0, w);
            && before.Report? && after.Report? && after.verifications != []
            && after.verifications[1..] == before.verifications
  {
    var f, read := SignMessage(msg, o, crypto, now).field, ReadHeader(msg);
    SignedReads(msg, o, crypto, now);
    ReportGrows(f, read.h, read.rest, w);
  }
}
