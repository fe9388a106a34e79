/** What the options of `Sign` lead to, name by name. */
module SigningLaws {
  import opened Text
  import opened Strings
  import opened BodyCanonical
  import opened Header
  import opened HeaderCanonical
  import opened HeaderLaws
  import opened Tags
  import opened Picker
  import opened Decimal
  import opened Dkim
  import opened Signing

  // ----- options

  /** No name, or a known one. */
  predicate IsKnown(name: string) {
    name == "" || name == "simple" || name == "relaxed"
  }

  /** What the options have to satisfy, by name. */
  predicate Usable(o: Options) {
    && o.domain != "" && o.selector != ""
    && o.signer != NoSigner && o.signer != OtherSigner
    && o.hash != Sha1 && o.hash != OtherHash
    && IsKnown(o.headerCan) && IsKnown(o.bodyCan)
    && (o.headerKeys.Some? ==>
          exists i :: 0 <= i < |o.headerKeys.value| && ToLower(o.headerKeys.value[i]) == "from")
  }

  function AlgorithmNamed(name: string): Algorithm {
    if name == "relaxed" then Relaxed else Simple
  }

  lemma {:induction false} KnownNames(name: string)
    ensures Chosen(name).Some? <==> IsKnown(name)
    ensures IsKnown(name) ==> Chosen(name) == Some(AlgorithmNamed(name))
  {
  }

  lemma {:induction false} FromIs(keys: seq<string>)
    ensures ListsFrom(keys) <==> exists i :: 0 <= i < |keys| && ToLower(keys[i]) == "from"
  {
    LowerAt("From");
    assert ToLower("From") == "from";
  }

  lemma {:induction false} AcceptableIs(o: Options)
    ensures Acceptable(o) <==> Usable(o)
  {
    KnownNames(o.headerCan);
    KnownNames(o.bodyCan);
    if o.headerKeys.Some? {
      FromIs(o.headerKeys.value);
    }
  }

  // ----- results

  /** Which result it is: options that are not usable, a header that does not end, a key that does not sign. */
  lemma {:induction false} ResultIs(msg: string, o: Options, crypto: Crypto, now: int)
    ensures SignMessage(msg, o, crypto, now).BadOptions? <==> !Usable(o)
    ensures SignMessage(msg, o, crypto, now).BadHeader? <==> Usable(o) && !HasEmptyLine(msg)
    ensures SignMessage(msg, o, crypto, now).Signed? ==>
              crypto.sign(crypto.hash(SignMessage(msg, o, crypto, now).headerBytes)).Some?
  {
    AcceptableIs(o);
    FailsWithoutEmptyLine(msg, []);
  }

  /** What is hashed for the body, and which fields are hashed. */
  lemma {:induction false} HashedIs(msg: string, o: Options, crypto: Crypto, now: int)
    requires SignMessage(msg, o, crypto, now).Signed?
    ensures var s, read := SignMessage(msg, o, crypto, now), ReadHeader(msg);
            && read.Header?
            && s.bodyBytes == (if o.bodyCan == "relaxed" then RelaxedBody(read.rest) else SimpleBody(read.rest))
            && HashedHeaders(read.h, if o.headerKeys.Some? then o.headerKeys.value else Picker.Names(read.h),
                             if o.headerCan == "relaxed" then Relaxed else Simple) <= s.headerBytes
            && forall i :: 0 <= i < |read.h| ==> Picker.Names(read.h)[i] == Name(read.h[i])
  {
    AcceptableIs(o);
    KnownNames(o.headerCan);
    KnownNames(o.bodyCan);
  }

  /** The two canonical forms of a field: as it is, and relaxed. */
  lemma {:induction false} CanonicalForms(s: string)
    ensures CanonicalHeader(Simple, s) == s && CanonicalHeader(Relaxed, s) == RelaxHeader(s)
  {
  }

  // ----- tags

  function KnownName(name: string): string {
    if name == "relaxed" then "relaxed" else "simple"
  }

  /** The tags that depend on a choice, in full: key and hash, canonicalizations, seconds, and header keys. */
  lemma {:induction false} ChosenTags(o: Options, keys: seq<string>, bodyHash: Digest, now: int)
    requires Acceptable(o)
    ensures var p := SignParams(o, keys, bodyHash, now);
            && {"a", "c", "t", "h"} <= p.Keys
            && p["a"] == (if o.signer == RsaSigner then "rsa-sha256" else "ed25519-sha256")
            && p["c"] == KnownName(o.headerCan) + "/" + KnownName(o.bodyCan)
            && p["t"] == FormatInt(now / 1_000_000_000)
            && p["h"] == Join(keys, ":")
  {
    AcceptableIs(o);
    KnownNames(o.headerCan);
    KnownNames(o.bodyCan);
    RequiredAt(o, keys, bodyHash, now);
    SignParamsTags(o, keys, bodyHash, now);
    AlgorithmText(o);
  }

  lemma {:induction false} AlgorithmText(o: Options)
    requires Acceptable(o)
    ensures KeyAlgoName(o) + "-" + "sha256" == if o.signer == RsaSigner then "rsa-sha256" else "ed25519-sha256"
  {
  }

  /** The field starts with its name and a colon. */
  lemma {:induction false} FieldStarts(params: TagMap)
    ensures "DKIM-Signature:" <= FormatParams(FIELD_NAME, params)
  {
  }
}
