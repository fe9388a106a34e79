/**
 The verdict on any signature of any message, condition by condition, and what a
 signed message is worth once its body has been changed.
 */
module Verdicts {
  import opened Text
  import opened Strings
  import opened BodyCanonical
  import opened Header
  import opened HeaderCanonical
  import opened Tags
  import opened Picker
  import opened Base64
  import opened Decimal
  import opened Dkim
  import opened Signing
  import opened Verifying
  import opened Agreement

  // ----- the conditions, each on its own

  /** Some entry of a colon-separated list is `x`, white space aside. */
  ghost predicate Lists(list: string, x: string) {
    exists i :: 0 <= i < |Split(list, ':')| && StripWhitespace(Split(list, ':')[i]) == x
  }

  /** Some entry of a colon-separated list is `from` in any case, white space aside. */
  ghost predicate ListsFromField(list: string) {
    exists i :: 0 <= i < |Split(list, ':')| && ToLower(StripWhitespace(Split(list, ':')[i])) == "from"
  }

  /** `identifier` is some text, then `mark`, then `domain`. */
  ghost predicate EndsWith(identifier: string, mark: string, domain: string) {
    exists user :: identifier == user + mark + domain
  }

  /** The identifier ends in the domain, right after an `@` or a dot. */
  ghost predicate BelongsTo(identifier: string, domain: string) {
    EndsWith(identifier, "@", domain) || EndsWith(identifier, ".", domain)
  }

  /** A number of seconds. */
  predicate IsTime(s: string) {
    ParseInt(StripWhitespace(s)).Some?
  }

  predicate NotAfter(now: int, s: string) {
    IsTime(s) && now <= ParseInt(StripWhitespace(s)).value * 1_000_000_000
  }

  /** What the tags and the clock must satisfy before the key is looked up. */
  ghost predicate TagsInOrder(p: TagMap, now: int) {
    && "v" in p && p["v"] == "1"
    && "a" in p && "b" in p && "bh" in p && "d" in p && "h" in p && "s" in p
    && ("i" in p ==> BelongsTo(StripWhitespace(p["i"]), StripWhitespace(p["d"])))
    && ListsFromField(p["h"])
    && ("t" in p ==> IsTime(p["t"]))
    && ("x" in p ==> NotAfter(now, p["x"]))
    && ("q" in p ==> Lists(p["q"], "dns/txt"))
  }

  /** The key that the tags point to. */
  function KeyOf(p: TagMap, w: World): Lookup {
    if "d" in p && "s" in p then w.lookup(StripWhitespace(p["d"]), StripWhitespace(p["s"])) else LookupPermFail
  }

  /** The key allows the algorithms named by the tag `a`. */
  predicate KeyFits(a: string, record: KeyRecord) {
    && '-' !in record.keyAlgo && StripWhitespace(a) == record.keyAlgo + "-" + "sha256"
    && (record.hashAlgos.Some? ==> "sha256" in record.hashAlgos.value)
    && (record.services.Some? ==> "email" in record.services.value)
  }

  predicate IsNameOf(x: string, alg: Algorithm) {
    match alg
    case Simple => x == "simple"
    case Relaxed => x == "relaxed"
  }

  /** The tag `c` chooses these algorithms for header and body; both are simple by default. */
  ghost predicate Chooses(c: string, header: Algorithm, body: Algorithm) {
    || (c == "" && header == Simple && body == Simple)
    || (IsNameOf(c, header) && body == Simple)
    || (exists x, y :: c == x + "/" + y && (IsNameOf(x, header) || (x == "" && header == Simple)) && IsNameOf(y, body))
  }

  ghost predicate CanonicalizationIs(p: TagMap, header: Algorithm, body: Algorithm) {
    Chooses(if "c" in p then StripWhitespace(p["c"]) else "", header, body)
  }

  predicate Decodes(p: TagMap) {
    && "bh" in p && Decode(StripWhitespace(p["bh"])).Some?
    && "b" in p && Decode(StripWhitespace(p["b"])).Some?
  }

  /** The body hash of the tags is that of the canonical body. */
  predicate BodyHashMatches(p: TagMap, body: string, alg: Algorithm, w: World) {
    "bh" in p && Decode(StripWhitespace(p["bh"])) == Some(w.hash(Canonical(alg, body)))
  }

  /** The bytes that stand for the header: the picked fields, and the signature's own field without its signature. */
  function HeaderBytes(p: TagMap, h: seq<string>, sigField: string, alg: Algorithm): string {
    HashedHeaders(h, ParseTagList(if "h" in p then p["h"] else ""), alg)
    + TrimRight(CanonicalHeader(alg, RemoveSignature(sigField)), IsLineEnd)
  }

  predicate KeyVerifies(p: TagMap, h: seq<string>, sigField: string, alg: Algorithm, record: KeyRecord, w: World)
    requires Decodes(p)
  {
    record.verifies(w.hash(HeaderBytes(p, h, sigField, alg)), Decode(StripWhitespace(p["b"])).value)
  }

  // ----- each check against its condition

  lemma {:induction false} SuffixIs(s: string, mark: string, domain: string)
    ensures HasSuffix(s, mark + domain) <==> EndsWith(s, mark, domain)
  {
    var n := |mark + domain|;
    if HasSuffix(s, mark + domain) {
      assert s == s[..|s| - n] + (mark + domain);
      ConcatAssoc(s[..|s| - n], mark, domain);
    }
    if EndsWith(s, mark, domain) {
      var user :| s == user + mark + domain;
      ConcatAssoc(user, mark, domain);
      assert s[|s| - n..] == mark + domain;
    }
  }

  lemma {:induction false} DomainIs(identifier: string, domain: string)
    ensures InDomain(identifier, domain) <==> BelongsTo(identifier, domain)
  {
    SuffixIs(identifier, "@", domain);
    SuffixIs(identifier, ".", domain);
  }

  lemma {:induction false} StrippedAt(parts: seq<string>, i: nat)
    requires i < |parts|
    ensures Stripped(parts)[i] == StripWhitespace(parts[i])
  {
    if i > 0 {
      StrippedAt(parts[1..], i - 1);
    }
  }

  lemma {:induction false} ListIs(list: string, x: string)
    ensures x in ParseTagList(list) <==> Lists(list, x)
  {
    var parts := Split(list, ':');
    forall i | 0 <= i < |parts| ensures ParseTagList(list)[i] == StripWhitespace(parts[i]) {
      StrippedAt(parts, i);
    }
  }

  lemma {:induction false} LowerFrom()
    ensures ToLower("From") == "from"
  {
    LowerAt("From");
  }

  lemma {:induction false} FromListIs(list: string)
    ensures ListsFrom(ParseTagList(list)) <==> ListsFromField(list)
  {
    LowerFrom();
    var parts := Split(list, ':');
    forall i | 0 <= i < |parts| ensures ParseTagList(list)[i] == StripWhitespace(parts[i]) {
      StrippedAt(parts, i);
    }
  }

  lemma {:induction false} AlgorithmIs(x: string, alg: Algorithm)
    ensures AlgorithmOf(x) == Some(alg) <==> IsNameOf(x, alg)
  {
  }

  lemma {:induction false} NameHasNoSlash(x: string, alg: Algorithm)
    requires IsNameOf(x, alg)
    ensures '/' !in x && x != ""
  {
  }

  /** What the parsed tag `c` amounts to. */
  predicate Parses(c: CutResult, header: Algorithm, body: Algorithm) {
    && (IsNameOf(c.before, header) || (c.before == "" && header == Simple))
    && (if c.found then IsNameOf(c.after, body) else body == Simple)
  }

  lemma {:induction false} ChoiceIs(c: string, header: Algorithm, body: Algorithm)
    ensures Parses(Cut(c, '/'), header, body) <==> Chooses(c, header, body)
  {
    IndexOfFirst(c, '/');
    var i := IndexOf(c, '/');
    if i < |c| {
      assert c == c[..i] + "/" + c[i + 1..];
    }
    if IsNameOf(c, header) {
      NameHasNoSlash(c, header);
      IndexOfAbsent(c, '/');
    }
    if x, y :| c == x + "/" + y && (IsNameOf(x, header) || (x == "" && header == Simple)) && IsNameOf(y, body) {
      if x != "" {
        NameHasNoSlash(x, header);
      }
      CutAt(x, '/', y);
    }
  }

  lemma {:induction false} CanonicalizationChosen(p: TagMap, header: Algorithm, body: Algorithm)
    ensures var cans := ParseCanonicalization(Get(p, "c"));
            AlgorithmOf(cans.0) == Some(header) && AlgorithmOf(cans.1) == Some(body)
            <==> CanonicalizationIs(p, header, body)
  {
    var c := StripWhitespace(Get(p, "c"));
    ChoiceIs(c, header, body);
    var cut := Cut(c, '/');
    AlgorithmIs(cut.before, header);
    AlgorithmIs(cut.after, body);
    AlgorithmIs("simple", header);
    AlgorithmIs("simple", body);
  }

  /** The plan of a signature that gets as far as hashing. */
  ghost predicate IsPlan(p: TagMap, v: Verification, record: KeyRecord, plan: Plan) {
    && CanonicalizationIs(p, plan.headerCan, plan.bodyCan) && "l" !in p && Decodes(p)
    && plan == Plan(v, record, plan.headerCan, plan.bodyCan, Decode(StripWhitespace(p["bh"])).value,
                    Decode(StripWhitespace(p["b"])).value)
  }

  ghost predicate SomeCanonicalization(p: TagMap) {
    exists header, body :: CanonicalizationIs(p, header, body)
  }

  /** What comes of the checks once the key fits. */
  ghost predicate AfterKey(p: TagMap, v: Verification, record: KeyRecord, r: Prepared) {
    if SomeCanonicalization(p) && "l" in p then r.Stop? && r.verif.err.Fail? && r.verif == v.(err := r.verif.err)
    else if SomeCanonicalization(p) && Decodes(p) then r.Go? && IsPlan(p, v, record, r.plan)
    else r.Stop? && r.verif.err.PermFail?
  }

  lemma {:induction false} CanonicalizationStep(p: TagMap, v: Verification, record: KeyRecord)
    requires "b" in p && "bh" in p
    ensures AfterKey(p, v, record, CheckCanonicalization(p, v, record))
  {
    var cans := ParseCanonicalization(Get(p, "c"));
    if AlgorithmOf(cans.0).Some? && AlgorithmOf(cans.1).Some? {
      CanonicalizationChosen(p, AlgorithmOf(cans.0).value, AlgorithmOf(cans.1).value);
    } else if SomeCanonicalization(p) {
      var header, body :| CanonicalizationIs(p, header, body);
      CanonicalizationChosen(p, header, body);
    }
  }

  lemma {:induction false} AlgorithmNameIs(a: string, keyAlgo: string)
    ensures Cut(a, '-') == CutResult(keyAlgo, "sha256", true)
            <==> '-' !in keyAlgo && a == keyAlgo + "-" + "sha256"
  {
    IndexOfFirst(a, '-');
    var i := IndexOf(a, '-');
    if i < |a| {
      assert a == a[..i] + "-" + a[i + 1..];
    }
    if '-' !in keyAlgo && a == keyAlgo + "-" + "sha256" {
      CutAt(keyAlgo, '-', "sha256");
    }
  }

  lemma {:induction false} AlgorithmStep(p: TagMap, v: Verification, record: KeyRecord)
    requires "a" in p
    ensures var r := CheckAlgorithms(p, v, record);
            if KeyFits(p["a"], record) then r == CheckCanonicalization(p, v, record)
            else r.Stop? && r.verif.err.PermFail?
  {
    AlgorithmNameIs(StripWhitespace(p["a"]), record.keyAlgo);
  }

  function LookedUp(p: TagMap, v: Verification, w: World): Prepared {
    match KeyOf(p, w)
    case LookupTempFail => Stop(v.(err := TempFail))
    case LookupPermFail => Perm(v, "no key for signature")
    case Found(record) => CheckAlgorithms(p, v, record)
  }

  ghost predicate StopsForGood(r: Prepared) {
    r.Stop? && r.verif.err.PermFail?
  }

  lemma {:induction false} RecordStep(p: TagMap, v: Verification, w: World)
    requires "d" in p && "s" in p && v.domain == StripWhitespace(p["d"])
    ensures var r := CheckRecord(p, v, w);
            if "q" in p ==> Lists(p["q"], "dns/txt") then r == LookedUp(p, v, w) else StopsForGood(r)
  {
    if "q" in p {
      ListIs(p["q"], "dns/txt");
    }
  }

  function TimeOf(p: TagMap, k: string): Option<int> {
    if k in p then ParseInt(StripWhitespace(p[k])) else None
  }

  lemma {:induction false} ExpirationStep(p: TagMap, v: Verification, w: World)
    requires v.expiration == None
    ensures var r := CheckExpiration(p, v, w);
            if "x" in p ==> NotAfter(w.now, p["x"]) then r == CheckRecord(p, v.(expiration := TimeOf(p, "x")), w)
            else StopsForGood(r)
  {
  }

  lemma {:induction false} TimeStep(p: TagMap, v: Verification, w: World)
    requires v.time == None
    ensures var r := CheckTime(p, v, w);
            if "t" in p ==> IsTime(p["t"]) then r == CheckExpiration(p, v.(time := TimeOf(p, "t")), w)
            else StopsForGood(r)
  {
  }

  lemma {:induction false} KeysStep(p: TagMap, v: Verification, w: World)
    requires "h" in p
    ensures var r := CheckKeys(p, v, w);
            if ListsFromField(p["h"]) then r == CheckTime(p, v.(headerKeys := ParseTagList(p["h"])), w)
            else StopsForGood(r)
  {
    FromListIs(p["h"]);
  }

  /** What a verdict reports besides the outcome. */
  function Data(p: TagMap): Verification
    requires "d" in p && "s" in p && "b" in p && "h" in p
  {
    var domain, b := StripWhitespace(p["d"]), StripWhitespace(p["b"]);
    Verification(domain, StripWhitespace(p["s"]), if |b| > 8 then b[..8] else b,
                 if "i" in p then StripWhitespace(p["i"]) else "@" + domain,
                 ParseTagList(p["h"]), TimeOf(p, "t"), TimeOf(p, "x"), Pass)
  }

  function Named(p: TagMap): Verification
    requires "d" in p && "s" in p && "b" in p && "h" in p
  {
    Data(p).(headerKeys := [], time := None, expiration := None)
  }

  lemma {:induction false} TagsStep(p: TagMap, w: World)
    requires HasRequiredTags(p)
    ensures var r := CheckTags(p, w);
            if "i" in p ==> BelongsTo(StripWhitespace(p["i"]), StripWhitespace(p["d"]))
            then r == CheckKeys(p, Named(p), w) else StopsForGood(r)
  {
    if "i" in p {
      DomainIs(StripWhitespace(p["i"]), StripWhitespace(p["d"]));
    }
  }

  lemma {:induction false} RequiredStep(p: TagMap, w: World)
    requires HasRequiredTags(p) && p["v"] == "1"
    ensures var r := CheckTags(p, w);
            if TagsInOrder(p, w.now)
            then r == LookedUp(p, Data(p), w) else StopsForGood(r)
  {
    TagsStep(p, w);
    KeysStep(p, Named(p), w);
    var v := Named(p).(headerKeys := ParseTagList(p["h"]));
    TimeStep(p, v, w);
    v := v.(time := TimeOf(p, "t"));
    ExpirationStep(p, v, w);
    RecordStep(p, v.(expiration := TimeOf(p, "x")), w);
  }

  // ----- the verdict

  /** Tags in order, a key that fits them, and algorithms that are known. */
  ghost predicate KeyUsable(p: TagMap, w: World) {
    && TagsInOrder(p, w.now) && KeyOf(p, w).Found? && KeyFits(p["a"], KeyOf(p, w).record)
    && SomeCanonicalization(p)
  }

  /** Both hashes are as they should be, under the algorithms that the tags choose. */
  ghost predicate BytesVerify(p: TagMap, h: seq<string>, body: string, sigField: string, w: World)
    requires Decodes(p) && KeyOf(p, w).Found?
  {
    exists header, bodyAlg ::
      && CanonicalizationIs(p, header, bodyAlg)
      && BodyHashMatches(p, body, bodyAlg, w)
      && KeyVerifies(p, h, sigField, header, KeyOf(p, w).record, w)
  }

  ghost predicate Passes(p: TagMap, h: seq<string>, body: string, sigField: string, w: World) {
    KeyUsable(p, w) && "l" !in p && Decodes(p) && BytesVerify(p, h, body, sigField, w)
  }

  ghost predicate Fails(p: TagMap, h: seq<string>, body: string, sigField: string, w: World) {
    KeyUsable(p, w) && ("l" in p || (Decodes(p) && !BytesVerify(p, h, body, sigField, w)))
  }

  ghost predicate FailsForNow(p: TagMap, w: World) {
    TagsInOrder(p, w.now) && KeyOf(p, w) == LookupTempFail
  }

  /** Which of the four outcomes it is, and what is reported with it. */
  ghost predicate VerdictIs(v: Verification, p: TagMap, h: seq<string>, body: string, sigField: string, w: World) {
    && (v.err == Pass <==> Passes(p, h, body, sigField, w))
    && (v.err.Fail? <==> Fails(p, h, body, sigField, w))
    && (v.err == TempFail <==> FailsForNow(p, w))
    && (!v.err.PermFail? ==> v == Data(p).(err := v.err))
  }

  /** How far `Prepare` gets. */
  ghost predicate PreparedIs(r: Prepared, p: TagMap, w: World) {
    if !TagsInOrder(p, w.now) then StopsForGood(r)
    else
      match KeyOf(p, w)
      case LookupTempFail => r == Stop(Data(p).(err := TempFail))
      case LookupPermFail => StopsForGood(r)
      case Found(record) => if KeyFits(p["a"], record) then AfterKey(p, Data(p), record, r) else StopsForGood(r)
  }

  lemma {:induction false} PreparedExactly(p: TagMap, value: string, w: World)
    requires ParseParams(value) == Params(p)
    ensures PreparedIs(Prepare(value, w), p, w)
  {
    if Get(p, "v") == "1" && HasRequiredTags(p) {
      RequiredStep(p, w);
      if TagsInOrder(p, w.now) && KeyOf(p, w).Found? {
        AlgorithmStep(p, Data(p), KeyOf(p, w).record);
        CanonicalizationStep(p, Data(p), KeyOf(p, w).record);
      }
    }
  }

  lemma {:induction false} ConcludedIs(p: TagMap, h: seq<string>, body: string, sigField: string, w: World, plan: Plan)
    requires KeyOf(p, w).Found? && "d" in p && "s" in p && "b" in p && "h" in p
    requires IsPlan(p, Data(p), KeyOf(p, w).record, plan)
    ensures var v := Conclude(plan, h, sigField, Canonical(plan.bodyCan, body), w);
            && v == Data(p).(err := v.err) && (v.err == Pass || v.err.Fail?)
            && (v.err == Pass <==> BodyHashMatches(p, body, plan.bodyCan, w)
                                   && KeyVerifies(p, h, sigField, plan.headerCan, KeyOf(p, w).record, w))
  {
  }

  lemma {:induction false} ChoiceIsUnique(p: TagMap, a: Algorithm, b: Algorithm, a': Algorithm, b': Algorithm)
    requires CanonicalizationIs(p, a, b) && CanonicalizationIs(p, a', b')
    ensures a == a' && b == b'
  {
    CanonicalizationChosen(p, a, b);
    CanonicalizationChosen(p, a', b');
  }

  lemma {:induction false} BytesVerifyIs(p: TagMap, h: seq<string>, body: string, sigField: string, w: World,
                                         a: Algorithm, b: Algorithm)
    requires Decodes(p) && KeyOf(p, w).Found? && CanonicalizationIs(p, a, b)
    ensures BytesVerify(p, h, body, sigField, w)
            <==> BodyHashMatches(p, body, b, w) && KeyVerifies(p, h, sigField, a, KeyOf(p, w).record, w)
  {
    if BytesVerify(p, h, body, sigField, w) {
      var a', b' :| CanonicalizationIs(p, a', b') && BodyHashMatches(p, body, b', w)
                    && KeyVerifies(p, h, sigField, a', KeyOf(p, w).record, w);
      ChoiceIsUnique(p, a, b, a', b');
    }
  }

  /**
   The verdict on every signature field in front of any header and body: it
   passes exactly when the tags are in order, the key fits, the body hash is that
   of the canonical body, and the key verifies the header bytes; and the other
   outcomes are as exact.
   */
  lemma {:induction false} VerdictExactly(h: seq<string>, body: string, sigField: string, w: World)
    ensures var v := VerifyOne(h, body, sigField, w);
            match ParseParams(ParseField(sigField).1)
            case Params(p) => VerdictIs(v, p, h, body, sigField, w)
            case _ => v.err.PermFail?
  {
    var value := ParseField(sigField).1;
    if ParseParams(value).Params? {
      var p := ParseParams(value).params;
      PreparedExactly(p, value, w);
      OutcomeOf(Prepare(value, w), p, h, body, sigField, w);
    }
  }

  function Outcome(r: Prepared, h: seq<string>, body: string, sigField: string, w: World): Verification {
    match r
    case Stop(v) => v
    case Go(plan) => Conclude(plan, h, sigField, Canonical(plan.bodyCan, body), w)
  }

  lemma {:induction false} OutcomeOf(r: Prepared, p: TagMap, h: seq<string>, body: string, sigField: string, w: World)
    requires PreparedIs(r, p, w)
    ensures VerdictIs(Outcome(r, h, body, sigField, w), p, h, body, sigField, w)
  {
    if r.Go? {
      ConcludedIs(p, h, body, sigField, w, r.plan);
      BytesVerifyIs(p, h, body, sigField, w, r.plan.headerCan, r.plan.bodyCan);
    }
  }

  // ----- a changed body

  lemma {:induction false} FirstFieldGrows(s: string, h: seq<string>)
    requires h != [] && ReadFrom(s, h).Header?
    ensures ReadFrom(s, h).h != [] && h[0] <= ReadFrom(s, h).h[0]
    decreases |s|
  {
    var (l, rest) := ReadLine(s).value;
    if l != "" {
      FirstFieldGrows(rest, AddLine(h, l));
    }
  }

  /** Whether a message starts a field can be told from its header. */
  lemma {:induction false} SameStart(s: string)
    requires ReadHeader(s).Header?
    ensures StartsField(s) <==> ReadHeader(s).h == [] || (ReadHeader(s).h[0] != "" && !IsWsp(ReadHeader(s).h[0][0]))
  {
    var (l, rest) := ReadLine(s).value;
    if l != "" {
      assert l[0] == s[0];
      FirstFieldGrows(rest, AddLine([], l));
    } else {
      assert s[0] == '\n' || s[0] == '\r';
    }
  }

  /**
   A signature put in front of another message with the same header: it passes
   exactly when it is admitted, the new body has the hash of the signed one, and
   the key accepts it for the header bytes that the verifier hashes.
   */
  lemma {:induction false} BodyHashDecides(msg: string, o: Options, crypto: Crypto, now: int, max: int, w: World,
                                           changed: string)
    requires SignedWell(msg, o, crypto, now) && w.hash == crypto.hash
    requires ReadHeader(changed).Header? && ReadHeader(changed).h == ReadHeader(msg).h
    ensures var s := SignMessage(msg, o, crypto, now);
            FirstVerdict(VerifyAll(s.field + changed, max, w),
                         && Accepted(msg, o, crypto, now, w)
                         && crypto.hash(Canonical(Chosen(o.bodyCan).value, ReadHeader(changed).rest))
                            == crypto.hash(s.bodyBytes),
                         Reported(o, HeaderKeys(o, ReadHeader(msg).h), now, Signature(msg, o, crypto, now)))
  {
    var s, read := SignMessage(msg, o, crypto, now), ReadHeader(changed);
    SignedIs(msg, o, crypto, now);
    SignedReads(msg, o, crypto, now);
    SameStart(msg);
    SameStart(changed);
    ReadSigned(msg, o, crypto, now, changed);
    FirstOf(s.field, changed, max, w);
    PreparedForSigned(msg, o, crypto, now, w);
  }

  lemma {:induction false} FirstOf(f: string, changed: string, max: int, w: World)
    requires ReadHeader(changed).Header? && Name(f) == FIELD_NAME
    requires ReadHeader(f + changed) == Header([f] + ReadHeader(changed).h, ReadHeader(changed).rest)
    ensures var report, read := VerifyAll(f + changed, max, w), ReadHeader(changed);
            && report.Report? && report.verifications != []
            && report.verifications[0] == VerifyOne([f] + read.h, read.rest, f, w)
  {
    NewSignatureIsFirst(f, ReadHeader(changed).h, ReadHeader(changed).rest, max, w);
  }

  lemma {:induction false} ReadSigned(msg: string, o: Options, crypto: Crypto, now: int, changed: string)
    requires SignedWell(msg, o, crypto, now) && StartsField(changed) && ReadHeader(changed).Header?
    ensures var f := SignMessage(msg, o, crypto, now).field;
            ReadHeader(f + changed) == Header([f] + ReadHeader(changed).h, ReadHeader(changed).rest)
  {
    SignedIs(msg, o, crypto, now);
    SignedReads(msg, o, crypto, now);
    SignedMessageReads(SignedParams(msg, o, crypto, now), Signature(msg, o, crypto, now), changed);
  }
}
