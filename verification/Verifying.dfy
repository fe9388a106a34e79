/** Verifying the signatures of a message (middleware/authres/dkim/verify.go). */
module Verifying {
  import opened Text
  import opened Strings
  import opened BodyCanonical
  import opened BodyWriters
  import opened Header
  import opened HeaderCanonical
  import opened Tags
  import opened Picker
  import opened Base64
  import opened Decimal
  import opened Dkim

  // ----- what verification depends on

  /** A public key record, as `query.go` finds it in the DNS. */
  datatype KeyRecord = KeyRecord(
    keyAlgo: string,
    hashAlgos: Option<seq<string>>,
    services: Option<seq<string>>,
    verifies: (Digest, seq<Byte>) -> bool)

  datatype Lookup = Found(record: KeyRecord) | LookupTempFail | LookupPermFail

  /** The clock in nanoseconds, the DNS for a domain and a selector, and the hash function. */
  datatype World = World(now: int, lookup: (string, string) -> Lookup, hash: string -> Digest)

  datatype Outcome = Pass | PermFail(why: string) | TempFail | Fail(why: string)

  datatype Verification = Verification(
    domain: string,
    selector: string,
    signature: string,
    identifier: string,
    headerKeys: seq<string>,
    time: Option<int>,
    expiration: Option<int>,
    err: Outcome)

  const NOTHING: Verification := Verification("", "", "", "", [], None, None, Pass)

  /** What `verify` has learned before it reads the body. */
  datatype Plan = Plan(verif: Verification, record: KeyRecord, headerCan: Algorithm, bodyCan: Algorithm,
                       bodyHash: seq<Byte>, sig: seq<Byte>)

  /** `verify` either stops without reading the body, or goes on to hash it. */
  datatype Prepared = Stop(verif: Verification) | Go(plan: Plan)

  function Perm(v: Verification, why: string): Prepared {
    Stop(v.(err := PermFail(why)))
  }

  // ----- the checks of `verify`, in order

  function Get(p: TagMap, k: string): string {
    if k in p then p[k] else ""
  }

  function Prepare(sigValue: string, w: World): Prepared {
    match ParseParams(sigValue)
    case Params(p) => if Get(p, "v") != "1" then Perm(NOTHING, "incompatible signature version") else CheckTags(p, w)
    case _ => Perm(NOTHING, "malformed signature tags")
  }

  predicate HasRequiredTags(p: TagMap) {
    "v" in p && "a" in p && "b" in p && "bh" in p && "d" in p && "h" in p && "s" in p
  }

  predicate HasSuffix(s: string, suffix: string) {
    |suffix| <= |s| && s[|s| - |suffix|..] == suffix
  }

  predicate InDomain(identifier: string, domain: string) {
    HasSuffix(identifier, "@" + domain) || HasSuffix(identifier, "." + domain)
  }

  function CheckTags(p: TagMap, w: World): Prepared {
    var b := StripWhitespace(Get(p, "b"));
    var v := NOTHING.(domain := StripWhitespace(Get(p, "d")), selector := StripWhitespace(Get(p, "s")),
                      signature := if |b| > 8 then b[..8] else b);
    if !HasRequiredTags(p) then Perm(v, "signature missing required tag")
    else if "i" in p then
      var i := StripWhitespace(p["i"]);
      if InDomain(i, v.domain) then CheckKeys(p, v.(identifier := i), w)
      else Perm(v.(identifier := i), "domain mismatch")
    else CheckKeys(p, v.(identifier := "@" + v.domain), w)
  }

  function CheckKeys(p: TagMap, v: Verification, w: World): Prepared {
    var keys := ParseTagList(Get(p, "h"));
    if !ListsFrom(keys) then Perm(v, "From field not signed")
    else CheckTime(p, v.(headerKeys := keys), w)
  }

  function ParseTime(s: string): Option<int> {
    ParseInt(StripWhitespace(s))
  }

  function CheckTime(p: TagMap, v: Verification, w: World): Prepared {
    if "t" in p then
      match ParseTime(p["t"])
      case None => Perm(v, "malformed time")
      case Some(t) => CheckExpiration(p, v.(time := Some(t)), w)
    else CheckExpiration(p, v, w)
  }

  function CheckExpiration(p: TagMap, v: Verification, w: World): Prepared {
    if "x" in p then
      match ParseTime(p["x"])
      case None => Perm(v, "malformed expiration time")
      case Some(t) =>
        var v' := v.(expiration := Some(t));
        if w.now > t * NANOS then Perm(v', "signature has expired") else CheckRecord(p, v', w)
    else CheckRecord(p, v, w)
  }

  /** The only known query method is listed, or none is given. */
  predicate QueriesDns(p: TagMap) {
    "q" in p ==> "dns/txt" in ParseTagList(p["q"])
  }

  function CheckRecord(p: TagMap, v: Verification, w: World): Prepared {
    if !QueriesDns(p) then Perm(v, "unsupported public key query method")
    else
      match w.lookup(v.domain, StripWhitespace(Get(p, "s")))
      case LookupTempFail => Stop(v.(err := TempFail))
      case LookupPermFail => Perm(v, "no key for signature")
      case Found(record) => CheckAlgorithms(p, v, record)
  }

  predicate Allows(list: Option<seq<string>>, x: string) {
    list.Some? ==> x in list.value
  }

  function CheckAlgorithms(p: TagMap, v: Verification, record: KeyRecord): Prepared {
    var c := Cut(StripWhitespace(Get(p, "a")), '-');
    if !c.found then Perm(v, "malformed algorithm name")
    else if !Allows(record.hashAlgos, c.after) then Perm(v, "inappropriate hash algorithm")
    else if c.after == "sha1" then Perm(v, "hash algorithm too weak")
    else if c.after != "sha256" then Perm(v, "unsupported hash algorithm")
    else if record.keyAlgo != c.before then Perm(v, "inappropriate key algorithm")
    else if !Allows(record.services, "email") then Perm(v, "inappropriate service")
    else CheckCanonicalization(p, v, record)
  }

  /** `parseCanonicalization`. */
  function ParseCanonicalization(s: string): (string, string) {
    var c := Cut(StripWhitespace(s), '/');
    (if c.before != "" then c.before else "simple", if c.found then c.after else "simple")
  }

  function CheckCanonicalization(p: TagMap, v: Verification, record: KeyRecord): Prepared {
    var cans := ParseCanonicalization(Get(p, "c"));
    if AlgorithmOf(cans.0).None? then Perm(v, "unsupported header canonicalization algorithm")
    else if AlgorithmOf(cans.1).None? then Perm(v, "unsupported body canonicalization algorithm")
    else if "l" in p then Stop(v.(err := Fail("message contains an insecure body length tag")))
    else
      match Decode(StripWhitespace(Get(p, "bh")))
      case None => Perm(v, "malformed body hash")
      case Some(bodyHash) =>
        match Decode(StripWhitespace(Get(p, "b")))
        case None => Perm(v, "malformed signature")
        case Some(sig) => Go(Plan(v, record, AlgorithmOf(cans.0).value, AlgorithmOf(cans.1).value, bodyHash, sig))
  }

  // ----- hashing

  /** The bytes hashed for checking a signature. */
  function VerifiedHeaderBytes(plan: Plan, h: seq<string>, sigField: string): string {
    HashedHeaders(h, plan.verif.headerKeys, plan.headerCan)
    + TrimRight(CanonicalHeader(plan.headerCan, RemoveSignature(sigField)), IsLineEnd)
  }

  /** The verdict on the bytes that have reached the two hashes. */
  function Verdict(plan: Plan, headerBytes: string, bodyBytes: string, w: World): Verification {
    plan.verif.(err :=
      if w.hash(bodyBytes) != plan.bodyHash then Fail("body hash did not verify")
      else if plan.record.verifies(w.hash(headerBytes), plan.sig) then Pass
      else Fail("signature did not verify"))
  }

  /** The verdict, once `bodyBytes` have reached the hash. */
  function Conclude(plan: Plan, h: seq<string>, sigField: string, bodyBytes: string, w: World): Verification {
    Verdict(plan, VerifiedHeaderBytes(plan, h, sigField), bodyBytes, w)
  }

  /** `verify` on a whole body. */
  function VerifyOne(h: seq<string>, body: string, sigField: string, w: World): Verification {
    match Prepare(ParseField(sigField).1, w)
    case Stop(v) => v
    case Go(plan) => Conclude(plan, h, sigField, Canonical(plan.bodyCan, body), w)
  }

  method Verify(h: seq<string>, body: string, sigField: string, w: World) returns (v: Verification)
    ensures v == VerifyOne(h, body, sigField, w)
  {
    var prepared := Prepare(ParseField(sigField).1, w);
    if prepared.Stop? {
      return prepared.verif;
    }
    var plan := prepared.plan;

    var hasher := new Hasher();
    CopyBody(plan.bodyCan, body, hasher);
    if w.hash(hasher.data) != plan.bodyHash {
      return plan.verif.(err := Fail("body hash did not verify"));
    }

    hasher.Reset();
    HashHeaders(h, plan.verif.headerKeys, plan.headerCan, hasher);
    assert hasher.data == HashedHeaders(h, plan.verif.headerKeys, plan.headerCan);
    var canSigField := RemoveSignature(sigField);
    canSigField := CanonicalHeader(plan.headerCan, canSigField);
    canSigField := TrimRight(canSigField, IsLineEnd);
    hasher.Write(canSigField);
    if !plan.record.verifies(w.hash(hasher.data), plan.sig) {
      return plan.verif.(err := Fail("signature did not verify"));
    }
    return plan.verif.(err := Pass);
  }

  // ----- all signatures of a message

  predicate IsSignature(kv: string) {
    EqualFold(Name(kv), FIELD_NAME)
  }

  /** The signature fields of `h`, from the top. */
  function Signatures(h: seq<string>): seq<string> {
    if h == [] then []
    else (if IsSignature(h[0]) then [h[0]] else []) + Signatures(h[1..])
  }

  /** The signatures that are looked at, with a limit of `max` when it is positive. */
  function Limited(sigs: seq<string>, max: int): seq<string> {
    if 0 < max < |sigs| then sigs[..max] else sigs
  }

  function VerifyEach(h: seq<string>, body: string, sigs: seq<string>, w: World): (vs: seq<Verification>)
    ensures |vs| == |sigs|
  {
    if sigs == [] then [] else [VerifyOne(h, body, sigs[0], w)] + VerifyEach(h, body, sigs[1..], w)
  }

  lemma {:induction false} VerifyEachAt(h: seq<string>, body: string, sigs: seq<string>, w: World, i: nat)
    requires i < |sigs|
    ensures VerifyEach(h, body, sigs, w)[i] == VerifyOne(h, body, sigs[i], w)
  {
    if i > 0 {
      VerifyEachAt(h, body, sigs[1..], w, i - 1);
    }
  }

  datatype Report = NoHeader | Report(verifications: seq<Verification>, tooMany: bool)

  /** `VerifyWithOptions`, with the signatures verified one after the other. */
  function VerifyAll(msg: string, max: int, w: World): Report {
    match ReadHeader(msg)
    case UnexpectedEOF => NoHeader
    case Header(h, body) =>
      var sigs := Signatures(h);
      Report(VerifyEach(h, body, Limited(sigs, max), w), 0 < max < |sigs|)
  }
}
