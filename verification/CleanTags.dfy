/** The tags that `Sign` prints survive printing, parsing and removal of the signature. */
module CleanTags {
  import opened Text
  import opened Strings
  import opened BodyCanonical
  import opened Tags
  import opened TagRoundTrip
  import opened SignatureRemoval
  import opened Base64
  import opened Decimal
  import opened Dkim
  import opened Signing

  /** A value that comes back from the field, and in which the signature expression does not match. */
  predicate CleanTag(v: string) {
    CleanValue(v) && Silent(v)
  }

  predicate GoodTag(k: string, v: string) {
    CleanKey(k) && SealedKey(k) && CleanValue(v)
  }

  predicate AllGood(params: TagMap) {
    forall k :: k in params ==> GoodTag(k, params[k])
  }

  /** The expression matches in no tag but `b`. */
  predicate AllSilent(params: TagMap) {
    forall k :: k in params && k != "b" ==> Silent(params[k])
  }

  /** Header keys that come back from the `h` tag. */
  predicate GoodKeys(keys: seq<string>) {
    forall i :: 0 <= i < |keys| ==> NoneOf(keys[i], IsSpace) && ':' !in keys[i] && ';' !in keys[i]
  }

  /** The expression matches in none of the texts that the options and the header give. */
  predicate SilentOptions(o: Options, keys: seq<string>) {
    && Silent(o.domain) && Silent(o.selector) && Silent(o.identifier) && Silent(FormatTagList(keys))
    && (o.queryMethods.Some? ==> Silent(FormatTagList(o.queryMethods.value)))
  }

  /** What the options and the header must look like for the tags to come back. */
  predicate GoodOptions(o: Options, keys: seq<string>, now: int) {
    && CleanValue(o.domain) && CleanValue(o.selector) && CleanValue(o.identifier)
    && (o.queryMethods.Some? ==> CleanValue(FormatTagList(o.queryMethods.value)))
    && (o.expiration.Some? ==> IsInt64(o.expiration.value))
    && IsInt64(now / NANOS)
    && GoodKeys(keys)
  }

  // ----- single values

  lemma {:induction false} SilentWithoutB(v: string)
    requires 'b' !in v
    ensures Silent(v)
  {
    forall i | 0 <= i < |v + ";"| ensures MatchB((v + ";")[i..]).None? {
      assert (v + ";")[i..][0] == (v + ";")[i];
      assert i < |v| ==> v[i] in v;
    }
  }

  lemma {:induction false} NoSpaceIsClean(v: string)
    requires NoneOf(v, IsSpace) && ';' !in v
    ensures CleanValue(v)
  {
  }

  lemma {:induction false} EncodedIsClean(d: seq<Byte>)
    ensures CleanTag(Encode(d)) && NoneOf(Encode(d), IsSpace)
  {
    var e := Encode(d);
    EncodedIsPaddedWell(d);
    assert NoneOf(e, IsSpace) && ';' !in e by {
      forall i | 0 <= i < |e| ensures !IsSpace(e[i]) && e[i] != ';' {
        assert IsBase64(e[i]);
      }
    }
    NoSpaceIsClean(e);
    PaddedIsSilent(e);
  }

  /** In base64 text the expression could only match at the padding, where it does not. */
  lemma {:induction false} PaddedIsSilent(e: string)
    requires PaddedWell(e)
    ensures Silent(e)
  {
    var s := e + ";";
    forall i | 0 <= i < |s| ensures MatchB(s[i..]).None? {
      var t := s[i..];
      if t[0] == 'b' && |t| > 1 {
        assert t[1] == s[i + 1];
        assert IsBase64(e[i]);
        assert i + 1 < |e| ==> IsBase64(e[i + 1]);
        assert ReSpaces(t[1..]) == 0;
        if t[1] == '=' {
          assert i + 1 == |e| - 1;
          assert t[2] == ';';
        }
      }
    }
  }

  lemma {:induction false} NumberIsClean(n: int)
    ensures CleanTag(FormatInt(n)) && NoneOf(FormatInt(n), IsSpace)
  {
    var s, d := FormatInt(n), Digits(if n < 0 then -n else n);
    forall i | 0 <= i < |s| ensures IsDigit(s[i]) || s[i] == '-' {
      assert n < 0 && i > 0 ==> s[i] == d[i - 1];
    }
    NoSpaceIsClean(s);
    SilentWithoutB(s);
  }

  predicate IsPlain(c: char) {
    !IsSpace(c) && c != ';' && c != 'b'
  }

  lemma {:induction false} PlainIsClean(v: string)
    requires AllOf(v, IsPlain)
    ensures CleanTag(v) && NoneOf(v, IsSpace)
  {
    NoSpaceIsClean(v);
    SilentWithoutB(v);
  }

  lemma {:induction false} PlainNames(alg: Algorithm, o: Options)
    ensures AllOf(NameOf(alg), IsPlain) && AllOf(KeyAlgoName(o), IsPlain)
    ensures AllOf("/", IsPlain) && AllOf("-sha256", IsPlain)
  {
  }

  lemma {:induction false} NamesAreClean(o: Options)
    requires Acceptable(o)
    ensures var c := NameOf(Chosen(o.headerCan).value) + "/" + NameOf(Chosen(o.bodyCan).value);
            CleanTag(c) && NoneOf(c, IsSpace)
    ensures var a := KeyAlgoName(o) + "-" + "sha256"; CleanTag(a) && NoneOf(a, IsSpace)
  {
    var h, b := NameOf(Chosen(o.headerCan).value), NameOf(Chosen(o.bodyCan).value);
    PlainNames(Chosen(o.headerCan).value, o);
    PlainNames(Chosen(o.bodyCan).value, o);
    AllOfAppend(h, "/", IsPlain);
    AllOfAppend(h + "/", b, IsPlain);
    PlainIsClean(h + "/" + b);
    AllOfAppend(KeyAlgoName(o), "-sha256", IsPlain);
    PlainIsClean(KeyAlgoName(o) + "-sha256");
    assert KeyAlgoName(o) + "-" + "sha256" == KeyAlgoName(o) + "-sha256";
  }

  lemma {:induction false} JoinHasNoSpace(keys: seq<string>)
    requires forall i :: 0 <= i < |keys| ==> NoneOf(keys[i], IsSpace) && ';' !in keys[i]
    ensures NoneOf(FormatTagList(keys), IsSpace) && ';' !in FormatTagList(keys)
  {
    if |keys| > 1 {
      JoinHasNoSpace(keys[1..]);
    }
  }

  lemma {:induction false} KeysAreClean(keys: seq<string>)
    requires GoodKeys(keys)
    ensures CleanValue(FormatTagList(keys))
  {
    JoinHasNoSpace(keys);
    NoSpaceIsClean(FormatTagList(keys));
  }

  // ----- the whole map

  lemma {:induction false} TagNamesAreGood()
    ensures forall k :: k in ["v", "a", "bh", "c", "d", "s", "t", "h", "i", "q", "x"] ==> CleanKey(k) && SealedKey(k)
  {
  }

  lemma {:induction false} RequiredParamsAreGood(o: Options, keys: seq<string>, bodyHash: Digest, now: int)
    requires Acceptable(o) && GoodOptions(o, keys, now)
    ensures AllGood(RequiredParams(o, keys, bodyHash, now))
  {
    TagNamesAreGood();
    SilentWithoutB("1");
    NamesAreClean(o);
    EncodedIsClean(bodyHash);
    NumberIsClean(now / NANOS);
    KeysAreClean(keys);
  }

  lemma {:induction false} AddGood(params: TagMap, k: string, v: string)
    requires AllGood(params) && GoodTag(k, v)
    ensures AllGood(params[k := v])
  {
  }

  lemma {:induction false} SignParamsAreGood(o: Options, keys: seq<string>, bodyHash: Digest, now: int)
    requires Acceptable(o) && GoodOptions(o, keys, now)
    ensures AllGood(SignParams(o, keys, bodyHash, now))
  {
    TagNamesAreGood();
    var p0 := RequiredParams(o, keys, bodyHash, now);
    var p1 := WithIdentifier(o, p0);
    var p2 := WithMethods(o, p1);
    RequiredParamsAreGood(o, keys, bodyHash, now);
    AddGood(p0, "i", o.identifier);
    if o.queryMethods.Some? {
      AddGood(p1, "q", FormatTagList(o.queryMethods.value));
    }
    if o.expiration.Some? {
      NumberIsClean(o.expiration.value);
      AddGood(p2, "x", FormatInt(o.expiration.value));
    }
  }

  /** The values of the required tags that no option gives are silent. */
  lemma {:induction false} FixedValuesAreSilent(o: Options, keys: seq<string>, bodyHash: Digest, now: int, k: string)
    requires Acceptable(o) && k in {"v", "a", "bh", "c", "t"}
    ensures k in RequiredParams(o, keys, bodyHash, now) && Silent(RequiredParams(o, keys, bodyHash, now)[k])
  {
    RequiredAt(o, keys, bodyHash, now);
    if k == "v" {
      SilentWithoutB("1");
    } else if k == "bh" {
      EncodedIsClean(bodyHash);
    } else if k == "t" {
      NumberIsClean(now / NANOS);
    } else {
      NamesAreClean(o);
    }
  }

  lemma {:induction false} RequiredAreSilent(p: TagMap)
    requires p.Keys == {"v", "a", "bh", "c", "d", "s", "t", "h"}
    requires Silent(p["v"]) && Silent(p["a"]) && Silent(p["bh"]) && Silent(p["c"]) && Silent(p["t"])
    ensures AllSilent(p) <==> Silent(p["d"]) && Silent(p["s"]) && Silent(p["h"])
  {
    assert AllSilent(p) ==> Silent(p["d"]) && Silent(p["s"]) && Silent(p["h"]);
  }

  lemma {:induction false} OptionalAreSilent(o: Options, p: TagMap, r: TagMap)
    requires OptionalTags(o, p, r) && "i" !in p && "q" !in p && "x" !in p && "b" !in p
    ensures AllSilent(r)
            <==> AllSilent(p) && Silent(o.identifier)
                 && (o.queryMethods.Some? ==> Silent(FormatTagList(o.queryMethods.value)))
  {
    SilentWithoutB("");
    if o.expiration.Some? {
      NumberIsClean(o.expiration.value);
    }
    if AllSilent(r) {
      forall k | k in p ensures Silent(p[k]) {
        assert r[k] == p[k];
      }
      assert "i" in r ==> Silent(r["i"]);
      assert "q" in r ==> Silent(r["q"]);
    }
  }

  lemma {:induction false} RequiredParamsAreSilent(o: Options, keys: seq<string>, bodyHash: Digest, now: int)
    requires Acceptable(o)
    ensures AllSilent(RequiredParams(o, keys, bodyHash, now))
            <==> Silent(o.domain) && Silent(o.selector) && Silent(FormatTagList(keys))
  {
    RequiredAt(o, keys, bodyHash, now);
    FixedValuesAreSilent(o, keys, bodyHash, now, "v");
    FixedValuesAreSilent(o, keys, bodyHash, now, "a");
    FixedValuesAreSilent(o, keys, bodyHash, now, "bh");
    FixedValuesAreSilent(o, keys, bodyHash, now, "c");
    FixedValuesAreSilent(o, keys, bodyHash, now, "t");
    RequiredAreSilent(RequiredParams(o, keys, bodyHash, now));
  }

  /** The signed tags are silent exactly when the options and the header keys are. */
  lemma {:induction false} SignParamsAreSilent(o: Options, keys: seq<string>, bodyHash: Digest, now: int)
    requires Acceptable(o)
    ensures AllSilent(SignParams(o, keys, bodyHash, now)) <==> SilentOptions(o, keys)
  {
    var p := RequiredParams(o, keys, bodyHash, now);
    assert "i" !in p && "q" !in p && "x" !in p && "b" !in p by {
      RequiredAt(o, keys, bodyHash, now);
    }
    RequiredParamsAreSilent(o, keys, bodyHash, now);
    SignParamsTags(o, keys, bodyHash, now);
    OptionalAreSilent(o, p, SignParams(o, keys, bodyHash, now));
  }
}
