/**
 One message signed three ways: the verifier agrees with the signer on the first,
 and hashes other bytes on the two that `HashedBytesAgree` excludes.
 */
module SigningExamples {
  import opened Text
  import opened Strings
  import opened Header
  import opened TagRoundTrip
  import opened SignatureRemoval
  import opened Ranking
  import opened Picker
  import opened Dkim
  import opened Signing
  import opened Verifying
  import opened CleanTags
  import opened Agreement

  const MESSAGE: string := "From: a\r\n\r\nx"

  const ZERO: Digest := seq(32, _ => 0)

  function Choices(selector: string, keys: seq<string>): Options {
    Options("a.c", selector, "", RsaSigner, DefaultHash, "relaxed", "simple", Some(keys), None, None)
  }

  const CRYPTO: Crypto := Crypto(_ => ZERO, _ => Some([0]))

  const RECORD: KeyRecord := KeyRecord("rsa", None, None, (_, _) => true)

  const WORLD: World := World(0, (_, _) => Found(RECORD), _ => ZERO)

  const FIELD: string := "From: a\r\n"

  lemma {:induction false} FirstLine()
    ensures ReadLine(MESSAGE) == Some(("From: a", "\r\nx"))
  {
    ReadTerminated("From: a", "\r\nx");
    assert MESSAGE == ("From: a" + "\r") + ("\n" + "\r\nx");
  }

  lemma {:induction false} SecondLine()
    ensures ReadLine("\r\nx") == Some(("", "x"))
  {
    ReadTerminated("", "x");
    assert "\r\nx" == ("" + "\r") + ("\n" + "x");
  }

  lemma {:induction false} OneLine(s: string, l: string, rest: string, body: string)
    requires ReadLine(s) == Some((l, rest)) && l != "" && ReadLine(rest) == Some(("", body))
    ensures ReadHeader(s) == Header([l + CRLF], body)
  {
    assert AddLine([], l) == [] + [l + CRLF] == [l + CRLF];
    assert ReadFrom(s, []) == ReadFrom(rest, [l + CRLF]);
    assert ReadFrom(rest, [l + CRLF]) == Header([l + CRLF], body);
  }

  lemma {:induction false} MessageReads()
    ensures ReadHeader(MESSAGE) == Header([FIELD], "x") && StartsField(MESSAGE)
  {
    FirstLine();
    SecondLine();
    OneLine(MESSAGE, "From: a", "\r\nx", "x");
    assert "From: a" + CRLF == FIELD;
  }

  lemma {:induction false} NameIs(k: string, rest: string)
    requires ':' !in k && Trimmed(k)
    ensures FoldedName(k + [':'] + rest) == ToLower(k)
  {
    CutAt(k, ':', rest);
    TrimSpaceAround("", k, "");
    assert "" + k + "" == k;
  }

  lemma {:induction false} LowerDiffers(a: string, b: string)
    requires a != "" && b != "" && LowerChar(a[0]) != LowerChar(b[0])
    ensures ToLower(a) != ToLower(b)
  {
    assert ToLower(a)[0] != ToLower(b)[0];
  }

  lemma {:induction false} CountOfOne<T>(x: T, y: T)
    ensures Count([x], y) == if x == y then 1 else 0
  {
    assert [x][..0] == [];
  }

  lemma {:induction false} CountOfTwo<T>(x: T, y: T)
    requires x != y
    ensures Count([x, y], y) == 1
  {
    assert [x, y][..1] == [x];
    CountOfOne(x, y);
  }

  lemma {:induction false} FieldIsFrom()
    ensures FoldedName(FIELD) == ToLower("From")
  {
    assert FIELD == "From" + [':'] + " a\r\n";
    NameIs("From", " a\r\n");
  }

  lemma {:induction false} OtherName(f: string, key: string)
    requires FoldedName(f) != ToLower(key)
    ensures Occurs([f], key) == 0
  {
    assert FoldedNames([f]) == [FoldedName(f)];
    CountOfOne(FoldedName(f), ToLower(key));
  }

  /** The message has no DKIM-Signature field. */
  lemma {:induction false} NoneOccurs()
    ensures Occurs([FIELD], FIELD_NAME) == 0
  {
    LowerDiffers("From", FIELD_NAME);
    FieldIsFrom();
    OtherName(FIELD, FIELD_NAME);
  }

  lemma {:induction false} MappedTwo<T, U>(f: T -> U, x: T, y: T)
    ensures Mapped(f, [x]) == [f(x)] && Mapped(f, [x, y]) == [f(x), f(y)]
  {
  }

  lemma {:induction false} AskedOf(k: string)
    ensures Folded([k]) == [ToLower(k)] && Folded([k, FIELD_NAME]) == [ToLower(k), ToLower(FIELD_NAME)]
  {
    MappedTwo(ToLower, k, FIELD_NAME);
  }

  /** A list with one From asks for no DKIM-Signature field, and one with a DKIM-Signature too for one. */
  lemma {:induction false} Counts()
    ensures Asked(["From"], FIELD_NAME) == 0 && Asked(["From", FIELD_NAME], FIELD_NAME) == 1
  {
    LowerDiffers("From", FIELD_NAME);
    AskedOf("From");
    CountOfOne(ToLower("From"), ToLower(FIELD_NAME));
    CountOfTwo(ToLower("From"), ToLower(FIELD_NAME));
  }

  // ----- the three sets of options

  predicate IsKeyList(keys: seq<string>) {
    keys == ["From"] || keys == ["From", FIELD_NAME]
  }

  lemma {:induction false} ListIsGood(keys: seq<string>)
    requires IsKeyList(keys)
    ensures GoodKeys(keys) && ListsFrom(keys) && Silent(FormatTagList(keys))
  {
    assert EqualFold(keys[0], "From");
    ListHasNoB(keys);
    SilentWithoutB(FormatTagList(keys));
    NamesAreKeys();
  }

  lemma {:induction false} ListHasNoB(keys: seq<string>)
    requires IsKeyList(keys)
    ensures 'b' !in FormatTagList(keys)
  {
    assert 'b' !in "From" && 'b' !in FIELD_NAME && 'b' !in ":";
    JoinChars(keys, ":", 'b');
  }

  lemma {:induction false} NamesAreKeys()
    ensures forall k :: k in ["From", FIELD_NAME] ==> NoneOf(k, IsSpace) && ':' !in k && ';' !in k
  {
  }

  lemma {:induction false} ChoicesAreAcceptable(selector: string, keys: seq<string>)
    requires selector != "" && IsKeyList(keys)
    ensures Acceptable(Choices(selector, keys))
  {
    ListIsGood(keys);
  }

  lemma {:induction false} ChoicesAreGood(selector: string, keys: seq<string>)
    requires CleanValue(selector) && IsKeyList(keys)
    ensures GoodOptions(Choices(selector, keys), keys, 0)
  {
    ListIsGood(keys);
    assert CleanValue("a.c") && CleanValue("");
  }

  lemma {:induction false} ChoicesAreAdmitted(selector: string, keys: seq<string>)
    requires IsKeyList(keys)
    ensures Admits(Choices(selector, keys), keys, WORLD)
  {
    ListIsGood(keys);
  }

  lemma {:induction false} AlwaysSigns(o: Options, h: seq<string>, body: string)
    requires Acceptable(o) && ReadHeader(MESSAGE) == Header(h, body)
    ensures SignMessage(MESSAGE, o, CRYPTO, 0).Signed?
  {
  }

  /** Signing succeeds, and the verifier admits the signature. */
  lemma {:induction false} IsSignedWell(selector: string, keys: seq<string>)
    requires selector != "" && CleanValue(selector) && IsKeyList(keys)
    ensures var o := Choices(selector, keys);
            SignedWell(MESSAGE, o, CRYPTO, 0) && HeaderKeys(o, ReadHeader(MESSAGE).h) == keys && Admits(o, keys, WORLD)
  {
    MessageReads();
    ChoicesAreAcceptable(selector, keys);
    ChoicesAreGood(selector, keys);
    ChoicesAreAdmitted(selector, keys);
    AlwaysSigns(Choices(selector, keys), [FIELD], "x");
  }

  lemma {:induction false} SmallValuesAreSilent()
    ensures Silent("a.c") && Silent("s") && Silent("")
  {
    SilentWithoutB("a.c");
    SilentWithoutB("s");
    SilentWithoutB("");
  }

  lemma {:induction false} SilentChoices(selector: string, keys: seq<string>)
    requires IsKeyList(keys)
    ensures SilentOptions(Choices(selector, keys), keys) <==> Silent(selector)
  {
    ListIsGood(keys);
    SmallValuesAreSilent();
  }

  lemma {:induction false} AgreementOf(selector: string, keys: seq<string>)
    requires selector != "" && CleanValue(selector) && IsKeyList(keys)
    ensures var o := Choices(selector, keys);
            && SignMessage(MESSAGE, o, CRYPTO, 0).Signed?
            && (HeaderBytesAgree(MESSAGE, o, CRYPTO, 0, WORLD) <==> Asked(keys, FIELD_NAME) == 0 && Silent(selector))
  {
    var o := Choices(selector, keys);
    IsSignedWell(selector, keys);
    HashedBytesAgree(MESSAGE, o, CRYPTO, 0, WORLD);
    MessageReads();
    NoneOccurs();
    SilentChoices(selector, keys);
  }

  /** Plain options agree. */
  lemma {:induction false} PlainOptionsAgree()
    ensures var o := Choices("s", ["From"]);
            SignMessage(MESSAGE, o, CRYPTO, 0).Signed? && HeaderBytesAgree(MESSAGE, o, CRYPTO, 0, WORLD)
  {
    AgreementOf("s", ["From"]);
    Counts();
    SmallValuesAreSilent();
  }

  /** A key list with one DKIM-Signature more than the message has does not. */
  lemma {:induction false} OverListedDiffers()
    ensures var o := Choices("s", ["From", FIELD_NAME]);
            SignMessage(MESSAGE, o, CRYPTO, 0).Signed? && !HeaderBytesAgree(MESSAGE, o, CRYPTO, 0, WORLD)
  {
    AgreementOf("s", ["From", FIELD_NAME]);
    Counts();
  }

  /** A selector in which the expression matches does not either. */
  lemma {:induction false} MatchingValueDiffers()
    ensures var o := Choices("b=x", ["From"]);
            SignMessage(MESSAGE, o, CRYPTO, 0).Signed? && !HeaderBytesAgree(MESSAGE, o, CRYPTO, 0, WORLD)
  {
    AgreementOf("b=x", ["From"]);
    Loud();
  }
}
