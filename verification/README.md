# smtpx: a verified model

This project models the parts of the smtpx mail server whose correctness depends
on state, on text that is printed and read back, or on interleaving, and proves
what they are for. `dafny verify dfyconfig.toml` checks it.

**DKIM** (RFC 6376). `Sign` reads the header, streams the body through a
canonicalizer into a hash, picks header fields bottom-up, prints a folded tag
list and prepends it; `VerifyWithOptions` finds the signatures again and hashes
what it believes was signed. The results the rest leads up to are in
`Agreement.dfy`. Whatever the options, a signed message passes exactly when the
settings are admitted and the published key accepts the signature for the bytes
that the verifier hashes (`SignThenVerify`). Those are the signer's bytes exactly
when the key list does not ask for more DKIM-Signature fields than the message had
and the expression that removes the signature matches in no text of the options
(`HashedBytesAgree`); so with the signer's own key these three conditions decide
(`OwnSignaturePassesExactly`). Below it:

- `BodyCanonical`, `BodyLines`, `BodyAlgebra`, `BodyWriters`: the body
  canonicalizers as writers that hold state between writes, their whole-body
  meaning for every way of cutting the body, the line-by-line algorithm of
  section 3.4.4 of RFC 6376, idempotence and the order between the two
  algorithms.
- `Header`, `HeaderCanonical`, `HeaderLaws`: reading and folding header fields,
  relaxed header canonicalization; the relaxed form of every field and the header
  that every text reads as, character by character.
- `Tags`, `TagRoundTrip`, `TagLaws`, `SignatureRemoval`, `SignatureLoss`: the tag
  list printer and parser, cutting the value of `b=` out again with the regular
  expression, and what is lost when the expression matches elsewhere too. `TagLaws`
  says what is printed, parsed and cut in terms of the text alone.
- `Ranking`, `Selection`, `Picker`, `SignatureFields`: bottom-up selection of header
  fields, over-signing, which fields are signatures, and that no case of names matters.
- `Signing`, `Verifying`, `CleanTags`, `Agreement`, with `Dkim`, `Base64` and
  `Decimal`: the two pipelines and how they meet. `SigningExamples` signs one
  message three ways, once for each side of the conditions.
- `SigningLaws`, `Verdicts`: what each option leads to, by name; and the verdict on
  any signature of any message, condition by condition, signed by this program or
  not (`VerdictExactly`), with what becomes of it when the body is changed
  (`BodyHashDecides`).

**Parallel verification.** `ParallelVerify` is the protocol between the copier and
the verifiers as interleaved steps, a failing source included; `VerifyMessage` ties
it to `VerifyWithOptions`.

**SMTP sessions.** `Session` is the loop of `handleConn` as a function from one
turn to the next, with a history of what was said and the senders and recipients of
what is delivered; `CommandLines` says what each line asks for, verb by verb, and
`SessionLines` restates deliveries by the lines that came. `SessionEnvelope` has the
other marks of a delivered envelope, `SessionAnswers` the answers that the history
calls for, `SessionOrder` the order of a session and its ends, and `SessionRuns` the
runs that attain the bounds and those with surprises. `Connection` is the same loop
on a connection object and envelope objects, and refines it; `Drain` is the accept
loop, the connection goroutines and the callers of `Shutdown` as interleaved steps.

**Authentication-Results** (RFC 7601). `AuthRes` prints and parses the field;
`AuthResRoundTrip` says exactly which results come back. `AuthResText` and
`AuthResMethods` have the printed text and the meaning of a text, method by method.

**Ids.** `Xid` is the base 32 encoding on an array; `XidOrder` has the decoder, the
order, and when two ids of one process are equal.

`Text`, `Strings` and `Sorting` hold the operations of Go's libraries that the
above needs. A string is a sequence of characters, one per byte.

Where the source changes state in place the model is a method or a class, and its
`ensures` ties the result or the new state to a function; the lemmas are about
that function. What comes from outside (hash, keys, DNS, clock, address parsing,
what a client sends, whether a write fails) is a parameter, and every theorem
holds for all its values.

Where the code and a plausible expectation differ, the model follows the code:

- The relaxed body writer takes a lone CR for a line end; `RelaxedIsLineWiseExactly`
  says on which bodies this matters, and `LoneCRDiffers` shows one.
- Removing the signature also cuts into any other tag value in which the
  expression matches; `RemovalUndoesSigning` has the exact condition, and
  `OtherTagIsCut` and `MatchingValueDiffers` show a selector for which it fails.
- A key list that asks for more DKIM-Signature fields than the message had makes
  the verifier hash the new field as well; `HashedBytesAgree` has the exact
  condition, and `OverListedDiffers` shows such a list.
- A transaction reset replaces the envelope, and with it the TLS, HELO and ESMTP
  marks, right after the upgrade too (connection.go:130, server.go:631-634).
  `DeliveredMarks` says what every delivered envelope carries, and `TLSMarkIsLost`
  shows a message after STARTTLS without the mark. For the same reason the check
  for a session that is already in TLS (server.go:614) never stops a second
  STARTTLS (`UpgradeGuard`), and a session can upgrade any number of times
  (`UpgradesAgain`).
- The error counter against which `MaxUnrecognizedCommands` is checked also counts
  refused MAIL and RCPT commands and failed handlers, unlike what
  server.go:71-72 says; `AnswersFollowHistory` has the exact condition, and
  `FirstUnrecognizedKills` shows sessions that end at their first unrecognized
  command.
- When the source of the body fails, the copier returns without closing a pipe
  (middleware/authres/dkim/verify.go:198-200), and then no verifier ever ends (`FailureStrandsVerifiers`).
- The recipient guard is `>`, so `MaxRecipients` + 1 recipients are accepted
  (`AnswersFollowHistory`), and some run delivers that many (`OneRecipientMore`).
- No connection ever sees the server shutting down, because the channel it looks at
  is closed after the last connection has finished
  (`Drain.HandledMeansNotShuttingDown`).
- Authentication results with values that print quoted, ARC results and
  authentication reasons do not come back; `RoundTripExactly` has the exact
  condition, `IPv6ComesBackQuoted` and `NeverComesBack` show the failures.

## Model

| member | source | states |
|---|---|---|
| BodyWriters.CrlfFixer.Fix | middleware/authres/dkim/canonical.go:31-47 | The output and the kept `cr` are those of the recursive fixer, which `FixAppend` shows independent of the cut |
| BodyCanonical.FixAppend | middleware/authres/dkim/canonical.go:31-47 | Fixing two pieces with the flag carried over gives the same text and flag as fixing their concatenation |
| BodyCanonical.FixedIsUnchanged | middleware/authres/dkim/canonical.go:31-47 | Text without bare LF passes the fixer unchanged whatever the flag says, which is why feeding it twice is harmless |
| BodyWriters.SimpleBodyCanonicalizer.Write | middleware/authres/dkim/canonical.go:61-89 | The hasher gains, and the object keeps, exactly what the writer's step function says, and all bytes are reported written |
| BodyWriters.SimpleBodyCanonicalizer.Close | middleware/authres/dkim/canonical.go:91-104 | The hasher ends with what the closing function gives: held line ends dropped, one CRLF at the end |
| BodyWriters.RelaxedBodyCanonicalizer.Write | middleware/authres/dkim/canonical.go:133-165 | The hasher gains, and the object keeps, exactly what the writer's step function says, through the loop over the bytes |
| BodyWriters.RelaxedBodyCanonicalizer.Close | middleware/authres/dkim/canonical.go:167-174 | The hasher ends with what the closing function gives: a CRLF only after a body that wrote something |
| BodyCanonical.RefeedIsHarmless | middleware/authres/dkim/canonical.go:61-89 | Feeding the held back text through the stateful fixer a second time, in front of the next write, gives the fixed continuation |
| BodyCanonical.WriteTracks | middleware/authres/dkim/canonical.go:61-165 | One write keeps the writer's invariant: what was written and is held is the canonical prefix of all bytes fed so far |
| BodyCanonical.StreamingIsWholeBody | middleware/authres/dkim/canonical.go:55-174 | For every cut of a body into writes, the total output after `Close` is that of the whole body, for both algorithms |
| BodyLines.RelaxedIsLineWiseExactly | middleware/authres/dkim/canonical.go:133-174 | The relaxed output equals the line-by-line algorithm of section 3.4.4 of RFC 6376 if and only if the lone CRs of the body are tame |
| BodyLines.LoneCRDiffers | middleware/authres/dkim/canonical.go:133-174 | On the body "a", SP, CR, "b" the relaxed output is not the line-by-line one |
| BodyLines.StreamedRelaxedIsLineWise | middleware/authres/dkim/canonical.go:133-174 | On a body without lone CR, every cut into writes gives the line-by-line result |
| BodyAlgebra.SimpleIsIdempotent | middleware/authres/dkim/canonical.go:61-104 | Canonicalizing a simple canonical body again changes nothing |
| BodyAlgebra.RelaxedIsIdempotent | middleware/authres/dkim/canonical.go:133-174 | Canonicalizing a relaxed canonical body again changes nothing, also with lone CRs |
| BodyAlgebra.RelaxedAbsorbsSimple | middleware/authres/dkim/canonical.go:61-174 | Relaxed after simple is relaxed |
| BodyAlgebra.SimpleEqualsRefinesRelaxedEquals | middleware/authres/dkim/canonical.go:61-174 | Bodies equal under simple are equal under relaxed |
| BodyAlgebra.SimpleIs | middleware/authres/dkim/canonical.go:61-104 | A body of text and any number of empty lines has as simple form the text and exactly one CRLF, also when it is empty |
| BodyAlgebra.BareLineFeedIsCrlf | middleware/authres/dkim/canonical.go:31-47 | For both algorithms a bare LF counts as a CRLF |
| HeaderCanonical.RelaxHeaderIsIdempotent | middleware/authres/dkim/canonical.go:112-123 | Relaxing a header field twice is relaxing it once |
| HeaderCanonical.RelaxHeaderUnfolds | middleware/authres/dkim/canonical.go:112-123 | Replacing a white space character of the value by CRLF and any positive run of white space does not change the result |
| HeaderCanonical.RelaxHeaderLineEnd | middleware/authres/dkim/canonical.go:112-123 | A line end after the value does not change the result |
| HeaderLaws.EveryTextIsSpread | middleware/authres/dkim/canonical.go:119-121 | Every value is words with white space in front of, between and behind them |
| HeaderLaws.RelaxedFieldIs | middleware/authres/dkim/canonical.go:112-124 | The relaxed form of such a field: the name trimmed and A to Z in lower case, a colon, the words one blank apart, CRLF |
| HeaderLaws.RelaxedWithoutColon | middleware/authres/dkim/canonical.go:113-116 | A field without a colon becomes its trimmed lower-case text and a colon |
| HeaderLaws.RelaxedIgnoresNameCase | middleware/authres/dkim/canonical.go:118 | Fields whose names differ in case only have the same relaxed form |
| HeaderLaws.RelaxedKeepsText | middleware/authres/dkim/canonical.go:112-124 | White space apart, the value is unchanged, and the name is the trimmed lower-case one |
| HeaderLaws.NameIs | middleware/authres/dkim/header.go:69-72 | The name of a field is what stands before its first colon without white space around it, and the value is trimmed |
| Header.ReadHeaderLines | middleware/authres/dkim/header.go:18-39 | The loop returns the fields and the rest that the recursive reader gives, or its end-of-input error |
| Header.ReadPrepended | middleware/authres/dkim/header.go:18-39 | A closed field put before a message is read as one more field on top, and nothing else changes |
| HeaderLaws.ReadWritten | middleware/authres/dkim/header.go:18-39 | A header of complete fields, an empty line and a body read as those fields and that body |
| HeaderLaws.FailsWithoutEmptyLine | middleware/authres/dkim/header.go:18-39 | Reading fails if and only if there is no empty line |
| HeaderLaws.BareLineFeed | middleware/authres/dkim/header.go:18-39 | A header line that ends in LF alone reads as if it ended in CRLF |
| TagLaws.FoldIs | middleware/authres/dkim/header.go:51-67 | A line breaks after every 75 characters and nowhere else |
| Header.FoldHeaderField | middleware/authres/dkim/header.go:51-67 | The loop gives the recursive folding, 75 characters a line |
| Header.UnfoldFold | middleware/authres/dkim/header.go:51-67 | Deleting each inserted CRLF and space gives the input back, for input without line ends |
| Header.FoldFits | middleware/authres/dkim/header.go:51-67 | No folded line is longer than 76 characters |
| Tags.SortParams | middleware/authres/dkim/header.go:124-138 | The keys but `b` in byte order, and whether and with what value `b` is there |
| Tags.FormatHeaderParams | middleware/authres/dkim/header.go:96-122 | The loop prints the recursive tag list, whose layout and inverse are the lemmas below |
| Tags.ParseHeaderParams | middleware/authres/dkim/header.go:74-94 | The loop gives the recursive parse: the map, or the first malformed or duplicate tag |
| Sorting.SortedUnique | middleware/authres/dkim/header.go:124-138 | Any strictly sorted list of the same keys is the same list, so how they are sorted does not matter |
| Sorting.LessIs | middleware/authres/dkim/header.go:136-138 | A text comes before its continuations and before those with a greater byte at the first difference |
| TagRoundTrip.ParseFormatted | middleware/authres/dkim/header.go:74-122 | Parsing a printed tag list gives the same map, with `b` as folding left it |
| TagRoundTrip.TagListRoundTrip | middleware/authres/dkim/header.go:18-138 | Printing, reading the header, cutting the field and parsing gives the same map, `b` equal up to white space |
| TagLaws.TagTextParses | middleware/authres/dkim/header.go:74-94 | Pieces `k = v` with any white space, separated by semicolons, parse to those tags, or to the duplicate error if and only if a key repeats |
| TagLaws.ParsedIsSaid | middleware/authres/dkim/header.go:76-90 | Every piece with an `=` is of that form |
| TagLaws.LastPiece | middleware/authres/dkim/header.go:78-83 | A last piece without `=` changes nothing when it is white space, and makes the list malformed otherwise |
| TagLaws.PrintedIs | middleware/authres/dkim/header.go:96-122 | White space apart, a printed field is name, colon, `k=v;` for the keys but `b` in byte order, and then `b=` |
| TagLaws.RowFits | middleware/authres/dkim/header.go:102-110 | Tags that fit in 75 columns stay in their row, each with one blank in front and a semicolon behind |
| TagLaws.RowBreaks | middleware/authres/dkim/header.go:102-110 | A tag that does not fit starts a new row |
| TagLaws.CutFirst | middleware/authres/dkim/verify.go:474-478 | Of the leftmost `b`, white space, `=` and the longest non-empty text without semicolon only the part up to `=` stays, and the search goes on behind it |
| TagLaws.CutNothing | middleware/authres/dkim/verify.go:474-478 | Text without such a match stays as it is |
| SignatureRemoval.TagRowsFit | middleware/authres/dkim/header.go:96-122 | Each printed line holds at most 75 characters of tags or a single tag |
| SignatureRemoval.RemovesExactly | middleware/authres/dkim/verify.go:474-478 | Removal leaves the field up to `b=` if and only if the expression matches in no other value |
| SignatureRemoval.RemovalUndoesSigning | middleware/authres/dkim/verify.go:474-478 | Removal and trimming give the field printed with an empty `b`, across all folds and layouts, if and only if no other value matches |
| SignatureRemoval.OtherTagIsCut | middleware/authres/dkim/verify.go:474-478 | With the selector `b=x`, whatever the signature, removal does not give the unsigned field back |
| SignatureLoss.TagsLose | middleware/authres/dkim/verify.go:474-478 | When the expression matches in another value, removal costs the printed tags a visible character |
| SignatureLoss.FieldIsLonger | middleware/authres/dkim/canonical.go:112-123 | Under either canonicalization the whole signed field is longer than what is hashed of it |
| Ranking.NthCharacterized | middleware/authres/dkim/header.go:152-172 | The n-th position of a value from the end is the one with n occurrences behind it, and -1 when there are not so many |
| Picker.HeaderPicker.Pick | middleware/authres/dkim/header.go:152-172 | Returns the next field of the name from the bottom or "", and counts it for that name only |
| Picker.NthIsNthFromBottom | middleware/authres/dkim/header.go:152-172 | The n-th pick of a name is its n-th instance from the bottom (section 5.4.2 of RFC 6376); exhausted names give "" forever |
| Picker.NoFieldTwice | middleware/authres/dkim/header.go:152-172 | Over any key list no field is picked twice |
| Picker.DefaultKeysCoverHeader | middleware/authres/dkim/sign.go:206-214 | With the default key list every header field is picked |
| Picker.HashHeaders | middleware/authres/dkim/sign.go:233-251 | The loop hashes, for each key, the canonical form of the field that the key takes, and nothing else |
| Picker.OverSigningDetectsInsertion | middleware/authres/dkim/header.go:152-172 | A name listed more often than it occurs: inserting a field of that name anywhere makes the hashed bytes longer |
| Picker.PrependedKeepsBytesExactly | middleware/authres/dkim/header.go:152-172 | A field put on top leaves the hashed bytes unchanged if and only if its name is listed at most as often as it occurred |
| Picker.PrependedGrowsBytes | middleware/authres/dkim/header.go:152-172 | A field put on top whose name is listed more often than it occurred adds its canonical form to the hashed bytes, once |
| SignatureFields.PickedTakes | middleware/authres/dkim/header.go:152-173 | The n-th key of a name, in any case of letters, takes the field of that name with n - 1 others below it, if there is one |
| SignatureFields.HashedInOrder | middleware/authres/dkim/verify.go:400-416 | The hashed bytes are the canonical forms of the fields taken, in the order of the keys |
| SignatureFields.CaseOfNames | middleware/authres/dkim/verify.go:129-138 | Changing the case of field names changes neither the number of verdicts nor which fields are picked |
| SignatureFields.CaseOfKeys | middleware/authres/dkim/header.go:152-173 | Changing the case of the keys does not change the hashed bytes |
| Base64.DecodeEncode | middleware/authres/dkim/verify.go:461-463 | Decoding an encoded value gives it back |
| Base64.EncodedIsPaddedWell | middleware/authres/dkim/sign.go:197 | Encoded text holds base64 characters only, and a `b` stands before a padding character only if that is the last one |
| Base64.EncodeThree | middleware/authres/dkim/sign.go:194-215 | Three bytes are four letters of the standard alphabet, six bits each |
| Base64.DecodesExactly | middleware/authres/dkim/verify.go:461-463 | A text decodes if and only if it is whole groups of four letters with up to two padding characters at the end |
| CleanTags.PaddedIsSilent | middleware/authres/dkim/verify.go:474-478 | Hence the signature expression matches nowhere in an encoded value such as that of `bh` |
| Decimal.ParseFormatInt | middleware/authres/dkim/verify.go:453-459 | Reading a printed 64-bit number gives it back |
| Decimal.FormatDigit | middleware/authres/dkim/sign.go:344-346 | The last digit is the remainder by ten, and only negative numbers have a sign |
| Decimal.ParseDigit | middleware/authres/dkim/verify.go:453-459 | One digit more is ten times as much and the digit, within 64 bits; a sign may stand in front |
| Decimal.OnlyDigitsParse | middleware/authres/dkim/verify.go:453-459 | Nothing but digits after an optional sign is a number |
| Dkim.CopyBody | middleware/authres/dkim/sign.go:180-189 | For any sizes of the chunks read, the hasher holds the canonical body |
| Signing.RequiredAt | middleware/authres/dkim/sign.go:194-215 | The tags that every signature has, and the value of each |
| Signing.OptionalAt | middleware/authres/dkim/sign.go:217-231 | The tags `i`, `q` and `x` are there if and only if their options are given, with those values, and no other tag changes |
| Signing.HashForSigning | middleware/authres/dkim/sign.go:233-260 | The hasher holds the picked fields and then the new field with an empty `b`, without its line end |
| Signing.Sign | middleware/authres/dkim/sign.go:90-333 | The new field and the bytes hashed for it, or the kind of failure |
| SigningLaws.AcceptableIs | middleware/authres/dkim/sign.go:90-155 | Which options are accepted: domain, selector, an RSA or Ed25519 key, known or absent canonicalizations and hash, and `from` among given keys |
| SigningLaws.ResultIs | middleware/authres/dkim/sign.go:309-333 | Options not accepted, a header without an empty line, or a key that does not sign give their own failures |
| SigningLaws.HashedIs | middleware/authres/dkim/sign.go:170-260 | The body hash is over the relaxed or simple body as named, and the header bytes start with the fields picked for the given keys or for all names |
| SigningLaws.ChosenTags | middleware/authres/dkim/sign.go:194-215 | The tags a, c, t and h in full: `rsa-sha256` or `ed25519-sha256`, both algorithms, the seconds, and the keys between colons |
| SigningLaws.FieldStarts | middleware/authres/dkim/sign.go:335-338 | The new field starts with `DKIM-Signature:` |
| CleanTags.SignParamsAreGood | middleware/authres/dkim/sign.go:194-231 | From well-formed options and header keys, every tag is one that survives printing and parsing |
| CleanTags.SignParamsAreSilent | middleware/authres/dkim/verify.go:474-478 | The expression matches in no tag but `b` if and only if it matches in none of the texts from the options and the header keys |
| Verifying.Verify | middleware/authres/dkim/verify.go:221-429 | The verdict is that of the checks in order, then the body hash, then the signature on the header bytes |
| Verdicts.VerdictExactly | middleware/authres/dkim/verify.go:221-429 | Over every message and signature field: the verdict passes if and only if the tags are in order, the key is found and fits, there is no `l`, `bh` decodes to the hash of the canonical body, and the key verifies the header bytes; Fail and TempFail have their exact conditions, and all but PermFail report the tags' data |
| Agreement.SignedMessageReads | middleware/authres/dkim/sign.go:309-333 | The signed message reads as the new field on top of the old header and the old body, and the field parses to the signed tags |
| Agreement.SameFieldBytes | middleware/authres/dkim/verify.go:411-421 | The new field contributes the same bytes on both sides, under either header canonicalization, if and only if the expression matches in no tag but `b` |
| Agreement.SameHeaderBytes | middleware/authres/dkim/verify.go:385-421 | The header bytes of both sides are equal if and only if DKIM-Signature is listed at most as often as it occurred and the expression matches in no tag but `b` |
| Agreement.TagChecks | middleware/authres/dkim/verify.go:221-383 | The verifier's checks let the signed tags through if and only if they are admitted, and then with the signer's settings |
| Agreement.PreparedForSigned | middleware/authres/dkim/verify.go:221-383 | The same for the field as it stands in the signed message, through printing and parsing |
| Agreement.HashedBytesAgree | middleware/authres/dkim/verify.go:385-421 | Verifier and signer hash the same body bytes, and the same header bytes if and only if DKIM-Signature is not over-listed and the expression matches in no text of the options, for all canonicalizations (section 3.7 of RFC 6376) |
| Agreement.SignThenVerify | middleware/authres/dkim/verify.go:123-166 | For all options that survive printing, the first verdict on a signed message is the new signature's; it passes if and only if the signature is admitted and the key accepts it for the header bytes that the verifier hashes, and then reports the signer's data |
| Agreement.SignedBytesDecide | middleware/authres/dkim/verify.go:385-429 | When DKIM-Signature is not over-listed and the expression matches in no text of the options, it passes if and only if admitted and the key accepts the signature for the signed bytes |
| Agreement.OwnSignaturePassesExactly | middleware/authres/dkim/verify.go:123-429 | With a key that accepts the signed bytes and tells them from the verifier's, it passes if and only if admitted, DKIM-Signature is not over-listed and the expression matches in no text of the options |
| Verdicts.BodyHashDecides | middleware/authres/dkim/verify.go:385-429 | A signature put in front of any message with the same header passes if and only if admitted, accepted by the key, and the canonical bodies have the same hash |
| Agreement.EarlierVerdictsStand | middleware/authres/dkim/verify.go:385-429 | Prepending a new signature changes no verdict on an earlier one that does not over-list DKIM-Signature |
| Agreement.ReportGrows | middleware/authres/dkim/verify.go:123-166 | The verdicts after prepending are the new one and then the earlier ones unchanged, when none of those over-lists DKIM-Signature |
| Agreement.SigningAddsOneVerdict | middleware/authres/dkim/verify.go:123-166 | Verifying the signed message reports one more verdict, at the front, than verifying the message |
| SigningExamples.PlainOptionsAgree | middleware/authres/dkim/verify.go:385-421 | A message and options for which signing succeeds and the header bytes agree |
| SigningExamples.OverListedDiffers | middleware/authres/dkim/verify.go:385-421 | With one DKIM-Signature too many in the key list they differ |
| SigningExamples.MatchingValueDiffers | middleware/authres/dkim/verify.go:474-478 | With the selector `b=x` they differ |
| ParallelVerify.NextKeepsInv | middleware/authres/dkim/verify.go:168-219 | Every step keeps the invariant: what a verifier has consumed is the part of the body that crossed its pipe |
| ParallelVerify.NoDeadlock | middleware/authres/dkim/verify.go:168-219 | In every state of the invariant in which the verdicts are not collected and the source has not failed some step is enabled |
| ParallelVerify.MeasureDecreases | middleware/authres/dkim/verify.go:168-219 | Every step makes the measure smaller |
| ParallelVerify.EverySchedule | middleware/authres/dkim/verify.go:168-219 | Every schedule is bounded, can go on until all verdicts are collected or the source fails, and once they are collected slot i holds what verifier i gives on the whole body, early stops included |
| ParallelVerify.FailureStrandsVerifiers | middleware/authres/dkim/verify.go:184-203 | Where a schedule cannot go on, every verifier has sent its verdict if the source never failed; if it failed, wherever in the body, not one of them ends, each waiting at a pipe that is not closed |
| VerifyMessage.ParallelIsSequential | middleware/authres/dkim/verify.go:168-219 | Under every schedule the collected verdicts are those of verifying one signature after the other |
| VerifyMessage.VerifyParallel | middleware/authres/dkim/verify.go:168-219 | When the source does not fail, the step loop ends under any preferences of the scheduler, with the sequential verdicts |
| VerifyMessage.ScanSignatures | middleware/authres/dkim/verify.go:123-141 | The signature fields in order from the top |
| SignatureFields.SignaturesAreNamed | middleware/authres/dkim/verify.go:129-138 | The signatures are the fields whose name is dkim-signature in any case, in order, and no others |
| SignatureFields.SignaturesCounted | middleware/authres/dkim/verify.go:129-138 | There are as many as fields of that name |
| SignatureFields.SpelledAnyHow | middleware/authres/dkim/verify.go:133-137 | A field counts if and only if its name, white space around it and case apart, is dkim-signature |
| VerifyMessage.VerifyWithOptions | middleware/authres/dkim/verify.go:123-166 | The report on all signatures up to the limit, and whether there were more |
| SignatureFields.ReportIs | middleware/authres/dkim/verify.go:123-166 | One verdict for each field of that name from the top, up to a positive limit, and the mark exactly when there are more |
| SignatureFields.NoReport | middleware/authres/dkim/verify.go:123-128 | There is no report if and only if no empty line ends the header |
| Session.TurnKeepsHistory | server.go:277-643 | Every turn, whatever happens outside, keeps the envelope in agreement with the history |
| Session.DeliveredEnvelopesMatchHistory | server.go:238-645 | In every run each delivered envelope has exactly the accepted recipients since the last reset, in order and at least one, and the only accepted sender; failed reads deliver nothing; requests are those of the lines |
| CommandLines.HeloLine | server.go:317-332 | Whatever its case, a line HELO asks for a HELO with the trimmed rest as name |
| CommandLines.EhloLine | server.go:334-360 | The same for EHLO |
| CommandLines.HelpLine | server.go:362-378 | A line HELP asks for help |
| CommandLines.XClientLine | server.go:380-386 | When XCLIENT is on, a line XCLIENT asks for it with the words of the rest; otherwise it is unrecognized |
| CommandLines.ProxyLine | server.go:406-415 | The same for PROXY and a blank |
| CommandLines.MailLine | server.go:436-451 | A line MAIL FROM: asks with the address up to the first blank, and with UTF-8 if and only if SMTPUTF8 is all that follows it |
| CommandLines.RcptLine | server.go:464-474 | A line RCPT TO: asks with the address of the trimmed rest |
| CommandLines.RsetLine | server.go:487-492 | A line RSET asks for a reset |
| CommandLines.VrfyLine | server.go:494-499 | A line VRFY asks for a check |
| CommandLines.NoopLine | server.go:501-508 | A line NOOP asks for nothing |
| CommandLines.QuitLine | server.go:510-515 | A line QUIT asks for the end |
| CommandLines.DataLine | server.go:517-525 | A line DATA asks to send a message |
| CommandLines.StartTLSLine | server.go:527-538 | A line STARTTLS asks for TLS |
| CommandLines.UnrecognizedExactly | server.go:540-547 | A line is unrecognized if and only if it starts with none of the verbs that are on |
| SessionLines.DeliveredAsAsked | server.go:238-645 | In every run each delivered envelope has the recipients of the RCPT TO: lines accepted since the last line HELO, EHLO or RSET, delivery or upgrade, and the sender of the MAIL FROM: line accepted since then |
| Session.SessionBounds | server.go:464-547 | In every run at most `MaxRecipients` + 1 recipients, and no more unrecognized commands answered than configured |
| SessionEnvelope.TurnKeepsMarks | server.go:277-643 | Every turn keeps the TLS, HELO, ESMTP, UTF8 and address marks in agreement with the history, and no text of an earlier message in the envelope |
| SessionEnvelope.DeliveredMarks | server.go:238-645 | In every run each delivered envelope is marked TLS if and only if the session opened with TLS and nothing was reset since; name, ESMTP, UTF8 and address are those of the history, and the text is that of its own message |
| SessionEnvelope.NoTLSAfterReset | connection.go:129-134 | No envelope delivered after a reset, such as a successful STARTTLS, is marked TLS |
| SessionEnvelope.UpgradeGuard | server.go:613-635 | In every run, the check for a session already in TLS stops a STARTTLS if and only if the session opened with TLS and nothing has been reset since; otherwise the handshake is made |
| SessionAnswers.CountersFollowHistory | server.go:436-547 | In every run the error counter is the number of nested, rejected, excessive, malformed and unrecognized commands and failed handlers in the history, and the message counter that of the messages the handler took |
| SessionAnswers.AnswersFollowHistory | server.go:317-547 | In every run every command is answered as the history calls for: a RCPT that parses is accepted if and only if at most `MaxRecipients` have been since the last reset; an unrecognized command gets the fatal answer if and only if it is at least the `MaxUnrecognizedCommands`-th error of any kind |
| SessionAnswers.OfferFollowsHistory | server.go:255-275 | In every run TLS is offered if and only if the server has it, is not always on it, and no upgrade has succeeded yet |
| SessionOrder.SessionsGoInOrder | server.go:277-643 | In every run the greeting is first, a message comes exactly after an accepted DATA, a handshake only after an accepted STARTTLS, and nothing after QUIT, too many errors, or an unreadable line or message |
| SessionOrder.NothingAfter | server.go:277-281 | After the end or a failed write nothing is said any more |
| SessionOrder.FailedWrite | server.go:277-281 | A write that fails is noticed, whatever was to be said |
| SessionOrder.Opens | server.go:255-277 | Nothing is said when the handshake of an always-TLS server fails; otherwise the greeting is |
| SessionOrder.ShutsDown | server.go:312-315 | A server that shuts down answers the next line with the news only, and closes |
| SessionOrder.NoLine | server.go:283-310 | When no line comes the session ends, and says why only when the line was too long |
| SessionOrder.HandlerAnswers | server.go:567-611 | A complete message is handed over with its text, answered as the handler says, and followed by the next command or by the shutdown |
| SessionRuns.OneRecipientMore | server.go:464-485 | Whatever `MaxRecipients` is, some run delivers an envelope with one recipient more |
| SessionRuns.TLSMarkIsLost | server.go:613-635 | On every server that offers STARTTLS, some run delivers an envelope without the TLS mark after a successful upgrade |
| SessionRuns.UpgradesAgain | server.go:613-635 | On every server that offers STARTTLS, for every n some run makes exactly n successful upgrades |
| SessionRuns.FirstUnrecognizedKills | server.go:464-547 | Whatever `MaxUnrecognizedCommands` is, some run is killed with one unrecognized command in it |
| Connection.Connection.constructor | connection.go:58-77 | The new connection has a fresh envelope and is in the state a session opens in, after the handshake of an always-TLS server |
| Connection.Connection.ResetTransaction | connection.go:129-134 | A fresh envelope with the old remote address; everything else stays |
| Connection.Connection.MailCommand | server.go:436-461 | The new state and the answer are those of the session's MAIL, and no delivered envelope changes |
| Connection.Connection.RcptCommand | server.go:464-485 | The new state and the answer are those of the session's RCPT, and no delivered envelope changes |
| Connection.Connection.XClientCommand | server.go:380-404 | The loop over the tokens sets address and name as the session's XCLIENT does |
| Connection.Connection.ProxyCommand | server.go:406-434 | The address comes from the second or third of five or six words, and anything else is a syntax error |
| Connection.Connection.UnrecognizedCommand | server.go:540-547 | Counts an error and kills the connection when the configured number is reached |
| Connection.Connection.StartTLSStep | server.go:613-635 | A successful handshake replaces the envelope and stops offering TLS; otherwise the session goes on as it was |
| Connection.Connection.Perform | server.go:317-547 | The new state and the answer of every command are those of the session |
| Connection.Connection.Deliver | server.go:550-611 | The handler gets the connection's own envelope, keeps it with what it left there, and the connection takes a new one |
| Connection.Connection.Step | server.go:277-643 | One turn of the loop is one turn of the session; every envelope delivered before keeps its contents |
| Connection.HandleConn | server.go:238-645 | The loop refines the session's run; each delivered message had a new envelope of its own, no two the same object, and at the end the i-th of them holds what the i-th handler left in it |
| Drain.NextKeepsInv | server.go:162-222 | Every step keeps the wait group and the counter equal to the connections at the stages that hold them |
| Drain.GracefulDrain | server.go:181-222 | Over every interleaving the channel is closed at most once and only when all accepted connections have finished; `Shutdown` returning nil leaves no active connection |
| Drain.HandledMeansNotShuttingDown | server.go:228-235 | A connection that is not finished never sees the server shutting down |
| Drain.NoDeadlock | server.go:181-222 | With the listener closed some step is enabled until everything is over |
| Drain.DrainEnds | server.go:181-222 | With the listener closed every schedule is bounded, and one that cannot go on has ended the loop, drained the server and returned every caller |
| AuthRes.FormatValue | middleware/authres/format.go:94-115 | The loop quotes exactly the values with a special character |
| AuthRes.FormatPvalue | middleware/authres/format.go:132-154 | The loop leaves address-like values alone and quotes others as `formatValue` does |
| AuthRes.FormatParams | middleware/authres/format.go:51-86 | The non-empty parameters, the reason first and the rest in byte order, one blank between two |
| AuthRes.Format | middleware/authres/format.go:10-26 | The identifier and the results joined by semicolons, or "none" |
| AuthRes.ParseResult | middleware/authres/parse.go:311-350 | The result of one segment, the last of equal parameters counting, or that it says nothing or fails |
| AuthRes.Parse | middleware/authres/parse.go:280-309 | The identifier without its version and the results up to the first segment that fails |
| AuthResRoundTrip.UnquotedIsClean | middleware/authres/format.go:94-154 | Text that prints without quotes contains no semicolon and no white space |
| AuthResRoundTrip.ParsedFieldIsClean | middleware/authres/parse.go:280-358 | Whatever the input, the parsed identifier and results contain no white space or semicolon, and names are in lower case |
| AuthResRoundTrip.FieldComesBack | middleware/authres/parse.go:280-358 | Every list of clean results parses back to its results with each value as printed |
| AuthResRoundTrip.RoundTripExactly | middleware/authres/parse.go:280-358 | `Parse(Format(id, results))` gives the identifier and the results back if and only if all texts are clean and every result loses nothing when printed |
| AuthResRoundTrip.IPv6ComesBackQuoted | middleware/authres/format.go:132-154 | An iprev result with the address `::1` comes back with quotes around it |
| AuthResRoundTrip.NeverComesBack | middleware/authres/format.go:28-49 | No list with an ARC result, or with an authentication result that has a reason, comes back |
| AuthResText.FieldIs | middleware/authres/format.go:10-26 | The identifier, and for each result a semicolon and its text |
| AuthResText.EmptyField | middleware/authres/format.go:13-16 | Without results the field says none |
| AuthResText.QuotedExactly | middleware/authres/format.go:88-115 | Text is quoted if and only if it contains one of the special characters, listed |
| AuthResText.PropertyQuotedExactly | middleware/authres/format.go:117-154 | A property made of address characters, listed, is never quoted |
| AuthResText.EscapedIs | middleware/authres/format.go:111-113 | Within quotes every quote gets a backslash |
| AuthResText.PlainIsKept | middleware/authres/format.go:111-113 | Text without a quote is not changed within quotes |
| AuthResText.AuthText | middleware/authres/format.go:28-86 | An authentication result prints as `auth=` and its value, and smtp.auth when there is one |
| AuthResText.DkimText | middleware/authres/format.go:28-86 | The method, the value, the reason, and header.b, header.d, header.i, header.s, each when it is not empty |
| AuthResText.DomainKeysText | middleware/authres/format.go:28-86 | The same with header.d, header.from, header.sender |
| AuthResText.IPRevText | middleware/authres/format.go:28-86 | The same with policy.iprev |
| AuthResText.SenderIDText | middleware/authres/format.go:28-86 | The same with the named header field in lower case |
| AuthResText.SpfText | middleware/authres/format.go:28-86 | The same with smtp.helo and smtp.mailfrom |
| AuthResText.DmarcText | middleware/authres/format.go:28-86 | The same with header.from |
| AuthResText.ArcText | middleware/authres/format.go:28-86 | ARC prints without a method, with header.oldest-pass when positive and smtp.remote-ip |
| AuthResMethods.AuthSays | middleware/authres/parse.go:39-44 | Any text with method auth, in any case, and any words in any order reads as that result, each property from the last word that gives it |
| AuthResMethods.DkimSays | middleware/authres/parse.go:59-67 | The same for dkim, with header.d, header.i, header.s and header.b |
| AuthResMethods.DomainKeysSays | middleware/authres/parse.go:87-94 | The same for domainkeys, with header.d, header.from and header.sender |
| AuthResMethods.IPRevSays | middleware/authres/parse.go:111-116 | The same for iprev, with policy.iprev |
| AuthResMethods.SenderIDSays | middleware/authres/parse.go:132-145 | The same for sender-id: some word that names a header field, or nothing without one |
| AuthResMethods.SpfSays | middleware/authres/parse.go:161-167 | The same for spf, with smtp.mailfrom and smtp.helo |
| AuthResMethods.DmarcSays | middleware/authres/parse.go:183-188 | The same for dmarc, with header.from |
| AuthResMethods.ArcSays | middleware/authres/parse.go:203-219 | The same for arc, which fails if and only if header.oldest-pass is given and not positive |
| AuthResMethods.OtherSays | middleware/authres/parse.go:342-349 | Any other method keeps its name and all properties |
| AuthResMethods.NothingOrFailure | middleware/authres/parse.go:311-322 | No word, or none first, says nothing; a first word without `=` fails |
| AuthResMethods.IdentifierIs | middleware/authres/parse.go:280-296 | The identifier is one word, and a version after it must be 1 |
| AuthResMethods.FieldSays | middleware/authres/parse.go:280-309 | The field gives the identifier and the results of its segments up to the first failure |
| AuthResMethods.SpfField | middleware/authres/parse.go:280-309 | An SPF segment gives the same result in either order of its words |
| Xid.Encode | utils/id.go:55-79 | The twenty letters of the twelve bytes; the rest of the destination stays |
| Xid.IndicesAreDigits | utils/id.go:59-78 | The shifts and masks compute the base 32 digits of the bytes, as numbers |
| Xid.DigitsInBase | utils/id.go:59-78 | All twenty digits are below 32 |
| Xid.DigitsValue | utils/id.go:59-78 | Read in base 32 the digits are 16 times the 96-bit big-endian number of the bytes |
| XidOrder.DecodeEncoded | utils/id.go:55-79 | An explicit decoder gives the twelve bytes back |
| XidOrder.EncodedInjective | utils/id.go:55-79 | Equal texts come from equal bytes, and only from them |
| XidOrder.TextOrderIsByteOrder | utils/id.go:12-79 | The order of the texts is the order of the bytes |
| XidOrder.Generator.XID | utils/id.go:26-47 | The counter goes up by one in 32 bits, and the text is that of the seconds, machine, process and counter |
| XidOrder.IdsEqual | utils/id.go:26-47 | Two ids of one process are equal if and only if their seconds and the low 24 bits of their counters are |
| XidOrder.CollideExactly | utils/id.go:26-47 | In one second the j-th and the k-th id are equal if and only if they are a multiple of 2^24 calls apart, across the 32-bit wrap |
| XidOrder.DistinctWithinSecond | utils/id.go:26-47 | Up to 2^24 ids of one process in one second are pairwise distinct |
| XidOrder.MakeIds | utils/id.go:26-47 | Calling `XID` up to 2^24 times in one second, from any state of the counter, gives pairwise distinct ids |
| XidOrder.IdCarries | utils/id.go:26-47 | The decoded text carries 32 bits of seconds, the machine, 16 bits of the process number and 24 bits of the counter, in this order |
| XidOrder.LaterSortsAfter | utils/id.go:26-47 | The id of a later second sorts after that of an earlier one |

## Left out

- Text beyond ASCII: white space, letters and case are the ASCII ones, and invalid UTF-8 is not treated.
- Cryptography, DNS lookup and key records (`query.go`), clocks and random numbers are parameters.
- A source or a destination whose reads or writes fail during `Sign`, or while the header or the body of a message with one signature is verified.
- VerifyMessage.VerifyParallel: for a source that does not fail; what happens when one fails is `ParallelVerify.FailureStrandsVerifiers`.
- VerifyMessage.VerifyWithOptions: for a source that does not fail.
- `bufio` and `net/textproto` limits: a header line or a body of any length is read.
- `limitedWriter` and `writeHeader` of the dkim package, which signing and verifying do not use.
- `sort.Strings` is modelled by the one sorted list of a set of keys, not by an algorithm.
- Agreement.HashedBytesAgree: asks, like the results built on it, that the message does not start with a space or a tab (its first line would continue the new field), and that option values are trimmed and free of `;` and line ends; header keys are free of white space, `:` and `;`.
- Picker.OverSigningDetectsInsertion: speaks of the hashed bytes, not of the hash or the verdict.
- Session and Connection: the text of the answers (host name, sizes, response strings), logging, deadlines, the recover of the caller and the middleware chain; a handler is any change of the envelope and a verdict.
- Session: `mail.ParseAddress`, `net.ParseIP`, the dot reader and the line reader are parameters or inputs; that `ParseAddress` never returns an empty address is taken over from `net/mail`.
- The server state `ConnShutdown` is reached by an input of a turn; that it is unreachable in a whole server is `Drain.HandledMeansNotShuttingDown`.
- Drain: one call of `ListenAndServe` with the listener set; `Shutdown` before that returns nil at once and is not modelled. `ServerState` is not modelled.
- The order in which Go ranges over a map is a parameter of parsing a sender-id result.
- `envelope/data.go`, `envelope/mail.go`, domain and recipient filters, the DMARC record parser and policy, and the example programs.
- XidOrder.DistinctWithinSecond: ids of different machines or processes may have equal texts, because three bytes of a hash and two bytes of the process number go in.
