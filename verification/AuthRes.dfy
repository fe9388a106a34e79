/**
 Printing and parsing the value of an Authentication-Results field
 (middleware/authres/format.go, middleware/authres/parse.go).
 */
module AuthRes {
  import opened Text
  import opened Strings
  import opened Decimal
  import opened Sorting

  type Params = map<string, string>

  datatype Result =
    | Auth(value: string, reason: string, auth: string)
    | Dkim(value: string, reason: string, domain: string, identifier: string, selector: string, signature: string)
    | DomainKeys(value: string, reason: string, domain: string, from: string, sender: string)
    | IPRev(value: string, reason: string, ip: string)
    | SenderID(value: string, reason: string, headerKey: string, headerValue: string)
    | Spf(value: string, reason: string, from: string, helo: string)
    | Dmarc(value: string, reason: string, from: string)
    | Arc(value: string, remoteIP: string, oldestPass: int)
    | Generic(method': string, value: string, params: Params)

  // ----- printing

  /** `resultMethod`; it has no case for ARC. */
  function MethodOf(r: Result): string {
    match r
    case Auth(_, _, _) => "auth"
    case Dkim(_, _, _, _, _, _) => "dkim"
    case DomainKeys(_, _, _, _, _) => "domainkeys"
    case IPRev(_, _, _) => "iprev"
    case SenderID(_, _, _, _) => "sender-id"
    case Spf(_, _, _, _) => "spf"
    case Dmarc(_, _, _) => "dmarc"
    case Arc(_, _, _) => ""
    case Generic(m, _, _) => m
  }

  /** The parameters that the `format` methods give. */
  function ParamsOf(r: Result): Params {
    match r
    case Auth(_, _, auth) => map["smtp.auth" := auth]
    case Dkim(_, reason, d, i, s, b) =>
      map["reason" := reason, "header.d" := d, "header.i" := i, "header.s" := s, "header.b" := b]
    case DomainKeys(_, reason, d, from, sender) =>
      map["reason" := reason, "header.d" := d, "header.from" := from, "header.sender" := sender]
    case IPRev(_, reason, ip) => map["reason" := reason, "policy.iprev" := ip]
    case SenderID(_, reason, key, v) => map["reason" := reason, "header." + ToLower(key) := v]
    case Spf(_, reason, from, helo) => map["reason" := reason, "smtp.mailfrom" := from, "smtp.helo" := helo]
    case Dmarc(_, reason, from) => map["reason" := reason, "header.from" := from]
    case Arc(_, ip, n) => map["smtp.remote-ip" := ip, "header.oldest-pass" := if n > 0 then FormatInt(n) else ""]
    case Generic(_, _, params) => params
  }

  const TSPECIALS := "()<>@,;:\\\"/[]?="

  /** The characters that may not be in a token: SPACE, CTLs and `tspecials`. */
  predicate IsSpecial(c: char) {
    c <= ' ' || c in TSPECIALS
  }

  const ADDRESS_OK := "#$%&'*+,./-@[]\\^_`{|}~"

  predicate IsAddressChar(c: char) {
    'a' <= c <= 'z' || 'A' <= c <= 'Z' || '0' <= c <= '9' || c in ADDRESS_OK
  }

  function EscapeQuotes(s: string): string {
    if s == "" then "" else (if s[0] == '"' then "\\\"" else [s[0]]) + EscapeQuotes(s[1..])
  }

  function Quote(s: string): string {
    "\"" + EscapeQuotes(s) + "\""
  }

  function ValueText(s: string): string {
    if NoneOf(s, IsSpecial) then s else Quote(s)
  }

  function PvalueText(s: string): string {
    if AllOf(s, IsAddressChar) then s else ValueText(s)
  }

  function Printed(k: string, v: string): string {
    if k == "reason" then ValueText(v) else PvalueText(v)
  }

  /** The reason if there is one, and then the other keys in byte order. */
  function KeyOrder(params: Params): (keys: seq<string>)
    ensures forall k :: k in keys ==> k in params
  {
    (if "reason" in params && params["reason"] != "" then ["reason"] else []) + SortedKeys(params.Keys - {"reason"})
  }

  /** The words of the parameters with a value. */
  function Words(keys: seq<string>, params: Params): seq<string>
    requires forall k :: k in keys ==> k in params
  {
    if keys == [] then []
    else
      var k := keys[|keys| - 1];
      Words(keys[..|keys| - 1], params) + if params[k] == "" then [] else [k + "=" + Printed(k, params[k])]
  }

  /** `formatParams`: one blank between two words. */
  function ParamsText(params: Params): string {
    Join(Words(KeyOrder(params), params), " ")
  }

  /** What `Format` puts between two semicolons for one result. */
  function Segment(r: Result): string {
    "\r\n  " + MethodOf(r) + "=" + r.value + " " + ParamsText(ParamsOf(r))
  }

  function Segments(results: seq<Result>): seq<string> {
    Mapped(Segment, results)
  }

  function FieldText(identity: string, results: seq<Result>): string {
    Join([identity] + (if results == [] then ["\r\n  none"] else Segments(results)), ";")
  }

  // ----- parsing

  datatype Param = Malformed | Pair(key: string, value: string)

  function ParseParam(s: string): Param {
    var c := Cut(s, '=');
    if c.found then Pair(ToLower(TrimSpace(c.before)), TrimSpace(c.after)) else Malformed
  }

  /** The parameters of the words, the last one of a key counting. */
  function ParamsIn(words: seq<string>): Params {
    if words == [] then map[]
    else
      var before := ParamsIn(words[..|words| - 1]);
      match ParseParam(words[|words| - 1])
      case Malformed => before
      case Pair(k, v) => before[k := v]
  }

  /** `params[k]` of a Go map: empty for a key that is not there. */
  function Lookup(params: Params, k: string): string {
    if k in params then params[k] else ""
  }

  const HEADER := "header."

  predicate IsHeaderKey(k: string) {
    HEADER <= k
  }

  function HeaderKeys(params: Params): set<string> {
    set k | k in params && IsHeaderKey(k)
  }

  /** A `range` over a Go map meets the keys in any order; `pick` says which one comes first. */
  ghost predicate Picks(pick: set<string> -> string) {
    forall s :: s != {} ==> pick(s) in s
  }

  function ParseSenderID(pick: set<string> -> string, value: string, params: Params): Result {
    var key := pick(HeaderKeys(params));
    if HeaderKeys(params) == {} || !IsHeaderKey(key)
    then SenderID(value, Lookup(params, "reason"), "", "")
    else SenderID(value, Lookup(params, "reason"), key[|HEADER|..], Lookup(params, key))
  }

  datatype Parsing = Nothing | Got(result: Result) | Failed

  function ParseArc(value: string, params: Params): Parsing {
    if "header.oldest-pass" !in params then Got(Arc(value, Lookup(params, "smtp.remote-ip"), 0))
    else
      match ParseInt(params["header.oldest-pass"])
      case None => Failed
      case Some(n) => if n <= 0 then Failed else Got(Arc(value, Lookup(params, "smtp.remote-ip"), n))
  }

  const KNOWN := {"arc", "auth", "dkim", "domainkeys", "iprev", "sender-id", "spf", "dmarc"}

  /** The table of methods, and the `parse` methods of its entries. */
  function FromParams(pick: set<string> -> string, method': string, value: string, params: Params): Parsing {
    if method' == "arc" then ParseArc(value, params)
    else Got(
      if method' == "auth" then Auth(value, Lookup(params, "reason"), Lookup(params, "smtp.auth"))
      else if method' == "dkim" then
        Dkim(value, Lookup(params, "reason"), Lookup(params, "header.d"), Lookup(params, "header.i"),
             Lookup(params, "header.s"), Lookup(params, "header.b"))
      else if method' == "domainkeys" then
        DomainKeys(value, Lookup(params, "reason"), Lookup(params, "header.d"), Lookup(params, "header.from"),
                   Lookup(params, "header.sender"))
      else if method' == "iprev" then IPRev(value, Lookup(params, "reason"), Lookup(params, "policy.iprev"))
      else if method' == "sender-id" then ParseSenderID(pick, value, params)
      else if method' == "spf" then
        Spf(value, Lookup(params, "reason"), Lookup(params, "smtp.mailfrom"), Lookup(params, "smtp.helo"))
      else if method' == "dmarc" then Dmarc(value, Lookup(params, "reason"), Lookup(params, "header.from"))
      else Generic(method', value, params))
  }

  /** What one segment between semicolons says. */
  function SegmentResult(pick: set<string> -> string, s: string): Parsing {
    var parts := Fields(s, IsSpace);
    if parts == [] || parts[0] == "none" then Nothing
    else
      match ParseParam(parts[0])
      case Malformed => Failed
      case Pair(k, v) => FromParams(pick, k, ToLower(v), ParamsIn(parts[1..]))
  }

  datatype Results = Results(list: seq<Result>, failed: bool)

  /** The results up to the first segment that does not parse. */
  function SegmentResults(pick: set<string> -> string, segments: seq<string>): Results {
    if segments == [] then Results([], false)
    else
      match SegmentResult(pick, TrimSpace(segments[0]))
      case Nothing => SegmentResults(pick, segments[1..])
      case Failed => Results([], true)
      case Got(r) =>
        var rest := SegmentResults(pick, segments[1..]);
        Results([r] + rest.list, rest.failed)
  }

  /** The identifier; None when a version other than 1 follows it. */
  function Identifier(s: string): Option<string> {
    var id := TrimSpace(s);
    var n := WordLength(id, IsSpace);
    if 0 < n < |id| then (if TrimSpace(id[n..]) != "1" then None else Some(id[..n])) else Some(id)
  }

  datatype Parsed = Parsed(identifier: string, results: seq<Result>, failed: bool)

  function ParsedField(pick: set<string> -> string, v: string): Parsed {
    var parts := Split(v, ';');
    match Identifier(parts[0])
    case None => Parsed("", [], true)
    case Some(id) =>
      var rest := SegmentResults(pick, parts[1..]);
      Parsed(id, rest.list, rest.failed)
  }

  // ----- the loops of format.go

  method FormatValue(s: string) returns (t: string)
    ensures t == ValueText(s)
  {
    var shouldQuote := false;
    for i := 0 to |s|
      invariant shouldQuote <==> !NoneOf(s[..i], IsSpecial)
    {
      if s[i] <= ' ' || s[i] in TSPECIALS {
        shouldQuote := true;
        assert IsSpecial(s[..i + 1][i]);
      }
      assert s[..i + 1] == s[..i] + [s[i]];
    }
    assert s[..|s|] == s;
    if shouldQuote {
      var escaped := ReplaceQuotes(s);
      return "\"" + escaped + "\"";
    }
    return s;
  }

  method ReplaceQuotes(s: string) returns (t: string)
    ensures t == EscapeQuotes(s)
  {
    t := "";
    for i := 0 to |s|
      invariant t + EscapeQuotes(s[i..]) == EscapeQuotes(s)
    {
      var c := if s[i] == '"' then "\\\"" else [s[i]];
      assert s[i..][1..] == s[i + 1..];
      ConcatAssoc(t, c, EscapeQuotes(s[i + 1..]));
      t := t + c;
    }
    assert t + "" == t;
  }

  method FormatPvalue(s: string) returns (t: string)
    ensures t == PvalueText(s)
  {
    var addressLike := true;
    for i := 0 to |s|
      invariant addressLike <==> AllOf(s[..i], IsAddressChar)
    {
      if !IsAddressChar(s[i]) {
        addressLike := false;
        assert !IsAddressChar(s[..i + 1][i]);
      }
      assert s[..i + 1] == s[..i] + [s[i]];
    }
    assert s[..|s|] == s;
    if addressLike {
      return s;
    }
    t := FormatValue(s);
  }

  lemma {:induction false} JoinSnoc(parts: seq<string>, last: string, sep: string)
    ensures Join(parts + [last], sep) == if parts == [] then last else Join(parts, sep) + sep + last
  {
    if |parts| > 1 {
      JoinSnoc(parts[1..], last, sep);
      assert (parts + [last])[1..] == parts[1..] + [last];
      ConcatAssoc(parts[0] + sep, Join(parts[1..], sep), sep + last);
      ConcatAssoc(Join(parts[1..], sep), sep, last);
      ConcatAssoc(parts[0] + sep + Join(parts[1..], sep), sep, last);
    }
  }

  /** The keys in the order in which `formatParams` prints them. */
  method OrderKeys(params: Params) returns (keys: seq<string>)
    ensures keys == KeyOrder(params)
  {
    var names: set<string> := {};
    var left := params.Keys;
    while left != {}
      invariant left <= params.Keys && names == params.Keys - left - {"reason"}
      decreases |left|
    {
      var k :| k in left;
      left := left - {k};
      if k != "reason" {
        names := names + {k};
      }
    }
    assert names == params.Keys - {"reason"};
    keys := SortedKeys(names);
    assert [] + keys == keys;
    if "reason" in params && params["reason"] != "" {
      keys := ["reason"] + keys;
    }
  }

  lemma {:induction false} WordsSnoc(keys: seq<string>, params: Params, j: nat)
    requires j < |keys| && forall k :: k in keys ==> k in params
    ensures params[keys[j]] == "" ==> Words(keys[..j + 1], params) == Words(keys[..j], params)
    ensures params[keys[j]] != "" ==>
              Words(keys[..j + 1], params)
              == Words(keys[..j], params) + [keys[j] + "=" + Printed(keys[j], params[keys[j]])]
  {
    assert keys[..j + 1][..j] == keys[..j];
    assert Words(keys[..j], params) + [] == Words(keys[..j], params);
  }

  method FormatWord(k: string, v: string) returns (word: string)
    ensures word == k + "=" + Printed(k, v)
  {
    var value: string;
    if k == "reason" {
      value := FormatValue(v);
    } else {
      value := FormatPvalue(v);
    }
    word := k + "=" + value;
  }

  /** One turn of the loop of `formatParams`; `i` words have been printed. */
  method AppendParam(keys: seq<string>, params: Params, j: nat, s: string, i: nat) returns (s': string, i': nat)
    requires j < |keys| && forall k :: k in keys ==> k in params
    requires s == Join(Words(keys[..j], params), " ") && i == |Words(keys[..j], params)|
    ensures s' == Join(Words(keys[..j + 1], params), " ") && i' == |Words(keys[..j + 1], params)|
  {
    var k := keys[j];
    WordsSnoc(keys, params, j);
    if params[k] == "" {
      return s, i;
    }
    var word := FormatWord(k, params[k]);
    JoinSnoc(Words(keys[..j], params), word, " ");
    s' := s;
    if i > 0 {
      s' := s' + " ";
    }
    s' := s' + word;
    i' := i + 1;
  }

  method FormatParams(params: Params) returns (s: string)
    ensures s == ParamsText(params)
  {
    var keys := OrderKeys(params);
    s := "";
    var i := 0;
    for j := 0 to |keys|
      invariant s == Join(Words(keys[..j], params), " ") && i == |Words(keys[..j], params)|
    {
      s, i := AppendParam(keys, params, j, s, i);
    }
    assert keys[..|keys|] == keys;
  }

  method Format(identity: string, results: seq<Result>) returns (s: string)
    ensures s == FieldText(identity, results)
  {
    s := identity;
    if |results| == 0 {
      s := s + ";" + "\r\n  none";
      JoinTwo(identity, "\r\n  none");
      return;
    }
    for i := 0 to |results|
      invariant s == Join([identity] + Segments(results[..i]), ";")
    {
      MappedSnoc(Segment, results, i);
      JoinOneMore(identity, Segments(results[..i]), Segment(results[i]));
      s := AppendResult(s, results[i]);
    }
    assert results[..|results|] == results;
  }

  method AppendResult(s: string, r: Result) returns (s': string)
    ensures s' == s + ";" + Segment(r)
  {
    var params := FormatParams(ParamsOf(r));
    s' := s + ";" + ("\r\n  " + MethodOf(r) + "=" + r.value + " " + params);
  }

  lemma {:induction false} JoinOneMore(first: string, parts: seq<string>, last: string)
    ensures Join([first] + (parts + [last]), ";") == Join([first] + parts, ";") + ";" + last
  {
    JoinSnoc([first] + parts, last, ";");
    assert [first] + (parts + [last]) == [first] + parts + [last];
  }

  lemma {:induction false} JoinTwo(a: string, b: string)
    ensures Join([a] + [b], ";") == a + ";" + b
  {
    assert ([a] + [b])[1..] == [b];
  }

  // ----- the loops of parse.go

  method ParseParams(words: seq<string>) returns (params: Params)
    ensures params == ParamsIn(words)
  {
    params := map[];
    for i := 0 to |words|
      invariant params == ParamsIn(words[..i])
    {
      assert words[..i + 1][..i] == words[..i];
      var p := ParseParam(words[i]);
      if p.Malformed? {
        continue;
      }
      params := params[p.key := p.value];
    }
    assert words[..|words|] == words;
  }

  method ParseResult(pick: set<string> -> string, s: string) returns (r: Parsing)
    ensures r == SegmentResult(pick, s)
  {
    var parts := Fields(s, IsSpace);
    if |parts| == 0 || parts[0] == "none" {
      return Nothing;
    }
    var first := ParseParam(parts[0]);
    if first.Malformed? {
      return Failed;
    }
    var params := ParseParams(parts[1..]);
    return FromParams(pick, first.key, ToLower(first.value), params);
  }

  method Parse(pick: set<string> -> string, v: string) returns (field: Parsed)
    ensures field == ParsedField(pick, v)
  {
    var parts := Split(v, ';');
    var identifier := TrimSpace(parts[0]);
    var n := WordLength(identifier, IsSpace);
    if 0 < n < |identifier| {
      var version := TrimSpace(identifier[n..]);
      if version != "1" {
        return Parsed("", [], true);
      }
      identifier := identifier[..n];
    }
    var results, failed := ParseResults(pick, parts[1..]);
    return Parsed(identifier, results, failed);
  }

  function Prepend(list: seq<Result>, rest: Results): Results {
    Results(list + rest.list, rest.failed)
  }

  lemma {:induction false} SegmentStep(pick: set<string> -> string, parts: seq<string>, i: nat, list: seq<Result>)
    requires i < |parts|
    ensures TrimSpace(parts[i]) == "" ==> SegmentResult(pick, TrimSpace(parts[i])) == Nothing
    ensures var rest := SegmentResults(pick, parts[i + 1..]);
            Prepend(list, SegmentResults(pick, parts[i..]))
            == match SegmentResult(pick, TrimSpace(parts[i]))
               case Nothing => Prepend(list, rest)
               case Failed => Results(list, true)
               case Got(r) => Prepend(list + [r], rest)
  {
    assert parts[i..][1..] == parts[i + 1..];
  }

  /** The loop of `Parse`. */
  method ParseResults(pick: set<string> -> string, parts: seq<string>) returns (results: seq<Result>, failed: bool)
    ensures Results(results, failed) == SegmentResults(pick, parts)
  {
    results := [];
    ghost var whole := SegmentResults(pick, parts);
    assert parts[0..] == parts;
    for i := 0 to |parts|
      invariant whole == Prepend(results, SegmentResults(pick, parts[i..]))
    {
      SegmentStep(pick, parts, i, results);
      var s := TrimSpace(parts[i]);
      if s == "" {
        continue;
      }
      var result := ParseResult(pick, s);
      if result.Failed? {
        return results, true;
      }
      if result.Got? {
        results := results + [result.result];
      }
    }
    return results, false;
  }
}
