/** Signing a message (middleware/authres/dkim/sign.go). */
module Signing {
  import opened Text
  import opened Strings
  import opened BodyCanonical
  import opened BodyWriters
  import opened Header
  import opened HeaderCanonical
  import opened Tags
  import opened Picker
  import opened Base64
  import opened Decimal
  import opened Dkim

  datatype SignerKind = NoSigner | RsaSigner | Ed25519Signer | OtherSigner
  datatype HashChoice = DefaultHash | Sha256 | Sha1 | OtherHash

  datatype Options = Options(
    domain: string,
    selector: string,
    identifier: string,
    signer: SignerKind,
    hash: HashChoice,
    headerCan: string,
    bodyCan: string,
    headerKeys: Option<seq<string>>,
    expiration: Option<int>,
    queryMethods: Option<seq<string>>)

  /** The hash function and the private key: both are left abstract. Signing may fail. */
  datatype Crypto = Crypto(hash: string -> Digest, sign: Digest -> Option<seq<Byte>>)

  /** The empty name stands for "simple". */
  function Chosen(name: string): Option<Algorithm> {
    AlgorithmOf(if name == "" then "simple" else name)
  }

  /** The checks of `NewSigner`, which all options have to pass. */
  predicate Acceptable(o: Options) {
    && o.domain != "" && o.selector != ""
    && (o.signer == RsaSigner || o.signer == Ed25519Signer)
    && Chosen(o.headerCan).Some? && Chosen(o.bodyCan).Some?
    && (o.hash == DefaultHash || o.hash == Sha256)
    && (o.headerKeys.Some? ==> ListsFrom(o.headerKeys.value))
  }

  function KeyAlgoName(o: Options): string {
    if o.signer == RsaSigner then "rsa" else "ed25519"
  }

  function HeaderKeys(o: Options, h: seq<string>): seq<string> {
    if o.headerKeys.Some? then o.headerKeys.value else Names(h)
  }

  /** The tags of the signature before `b` is added. */
  function SignParams(o: Options, keys: seq<string>, bodyHash: Digest, now: int): TagMap
    requires Acceptable(o)
  {
    WithExpiration(o, WithMethods(o, WithIdentifier(o, RequiredParams(o, keys, bodyHash, now))))
  }

  function RequiredParams(o: Options, keys: seq<string>, bodyHash: Digest, now: int): TagMap
    requires Acceptable(o)
  {
    map[
      "v" := "1",
      "a" := KeyAlgoName(o) + "-" + "sha256",
      "bh" := Encode(bodyHash),
      "c" := NameOf(Chosen(o.headerCan).value) + "/" + NameOf(Chosen(o.bodyCan).value),
      "d" := o.domain,
      "s" := o.selector,
      "t" := FormatInt(now / NANOS),
      "h" := FormatTagList(keys)
    ]
  }

  function WithIdentifier(o: Options, params: TagMap): TagMap {
    if o.identifier != "" then params["i" := o.identifier] else params
  }

  function WithMethods(o: Options, params: TagMap): TagMap {
    if o.queryMethods.Some? then params["q" := FormatTagList(o.queryMethods.value)] else params
  }

  function WithExpiration(o: Options, params: TagMap): TagMap {
    if o.expiration.Some? then params["x" := FormatInt(o.expiration.value)] else params
  }

  /** The tags that every signature has. */
  lemma {:induction false} RequiredAt(o: Options, keys: seq<string>, bodyHash: Digest, now: int)
    requires Acceptable(o)
    ensures var p := RequiredParams(o, keys, bodyHash, now);
            && p.Keys == {"v", "a", "bh", "c", "d", "s", "t", "h"}
            && p["v"] == "1" && p["d"] == o.domain && p["s"] == o.selector && p["h"] == FormatTagList(keys)
            && p["a"] == KeyAlgoName(o) + "-" + "sha256" && p["bh"] == Encode(bodyHash)
              && p["t"] == FormatInt(now / NANOS)
            && p["c"] == NameOf(Chosen(o.headerCan).value) + "/" + NameOf(Chosen(o.bodyCan).value)
  {
  }

  /** What the optional tags of `r`, made from `p`, look like. */
  predicate OptionalTags(o: Options, p: TagMap, r: TagMap) {
    && (forall k :: k in p ==> k in r && r[k] == p[k])
    && (forall k :: k in r ==> k in p || k == "i" || k == "q" || k == "x")
    && ("i" in r <==> o.identifier != "") && ("i" in r ==> r["i"] == o.identifier)
    && ("q" in r <==> o.queryMethods.Some?) && ("q" in r ==> r["q"] == FormatTagList(o.queryMethods.value))
    && ("x" in r <==> o.expiration.Some?) && ("x" in r ==> r["x"] == FormatInt(o.expiration.value))
  }

  /** The optional tags are there exactly when their options are given. */
  lemma {:induction false} OptionalAt(o: Options, p: TagMap)
    requires "i" !in p && "q" !in p && "x" !in p
    ensures var r := WithExpiration(o, WithMethods(o, WithIdentifier(o, p)));
            OptionalTags(o, p, r)
  {
  }

  /** So all tags of a signature are known. */
  lemma {:induction false} SignParamsTags(o: Options, keys: seq<string>, bodyHash: Digest, now: int)
    requires Acceptable(o)
    ensures OptionalTags(o, RequiredParams(o, keys, bodyHash, now), SignParams(o, keys, bodyHash, now))
  {
    RequiredAt(o, keys, bodyHash, now);
    OptionalAt(o, RequiredParams(o, keys, bodyHash, now));
  }

  method FillParams(o: Options, keys: seq<string>, bodyHash: Digest, now: int) returns (params: TagMap)
    requires Acceptable(o)
    ensures params == SignParams(o, keys, bodyHash, now)
  {
    params := map[
      "v" := "1",
      "a" := KeyAlgoName(o) + "-" + "sha256",
      "bh" := Encode(bodyHash),
      "c" := NameOf(Chosen(o.headerCan).value) + "/" + NameOf(Chosen(o.bodyCan).value),
      "d" := o.domain,
      "s" := o.selector,
      "t" := FormatInt(now / NANOS)
    ];
    params := params["h" := FormatTagList(keys)];
    if o.identifier != "" {
      params := params["i" := o.identifier];
    }
    if o.queryMethods.Some? {
      params := params["q" := FormatTagList(o.queryMethods.value)];
    }
    if o.expiration.Some? {
      params := params["x" := FormatInt(o.expiration.value)];
    }
  }

  /** The bytes hashed for the signature. */
  function SignedHeaderBytes(alg: Algorithm, h: seq<string>, keys: seq<string>, params: TagMap): string {
    HashedHeaders(h, keys, alg)
    + TrimRight(CanonicalHeader(alg, FormatParams(FIELD_NAME, params["b" := ""])), IsLineEnd)
  }

  datatype SignResult =
    | Signed(field: string, bodyBytes: string, headerBytes: string)
    | BadOptions
    | BadHeader
    | SigningFailed

  /** `NewSigner`, its goroutine and `Signature`: the new field and the bytes hashed for it. */
  function SignMessage(msg: string, o: Options, crypto: Crypto, now: int): SignResult {
    if !Acceptable(o) then BadOptions
    else
      match ReadHeader(msg)
      case UnexpectedEOF => BadHeader
      case Header(h, body) =>
        var bodyBytes := Canonical(Chosen(o.bodyCan).value, body);
        var keys := HeaderKeys(o, h);
        var params := SignParams(o, keys, crypto.hash(bodyBytes), now);
        var headerBytes := SignedHeaderBytes(Chosen(o.headerCan).value, h, keys, params);
        match crypto.sign(crypto.hash(headerBytes))
        case None => SigningFailed
        case Some(sig) => Signed(FormatParams(FIELD_NAME, params["b" := Encode(sig)]), bodyBytes, headerBytes)
  }

  /** Hashing the picked fields and the new field with an empty `b`. */
  method HashForSigning(h: seq<string>, keys: seq<string>, alg: Algorithm, params: TagMap, hasher: Hasher)
    modifies hasher
    ensures hasher.data == SignedHeaderBytes(alg, h, keys, params)
  {
    hasher.Reset();
    HashHeaders(h, keys, alg, hasher);
    var sigField := FormatHeaderParams(FIELD_NAME, params["b" := ""]);
    sigField := CanonicalHeader(alg, sigField);
    sigField := TrimRight(sigField, IsLineEnd);
    assert hasher.data == HashedHeaders(h, keys, alg);
    hasher.Write(sigField);
  }

  method Sign(msg: string, o: Options, crypto: Crypto, now: int) returns (result: SignResult)
    ensures result == SignMessage(msg, o, crypto, now)
  {
    if !Acceptable(o) {
      return BadOptions;
    }
    var read := ReadHeaderLines(msg);
    if read.UnexpectedEOF? {
      return BadHeader;
    }

    var hasher := new Hasher();
    CopyBody(Chosen(o.bodyCan).value, read.rest, hasher);
    var bodyBytes := hasher.data;

    var keys := HeaderKeys(o, read.h);
    var params := FillParams(o, keys, crypto.hash(bodyBytes), now);
    HashForSigning(read.h, keys, Chosen(o.headerCan).value, params, hasher);
    var headerBytes := hasher.data;

    var sig := crypto.sign(crypto.hash(headerBytes));
    if sig.None? {
      return SigningFailed;
    }
    params := params["b" := Encode(sig.value)];
    var field := FormatHeaderParams(FIELD_NAME, params);
    return Signed(field, bodyBytes, headerBytes);
  }
}
