/** The text of each kind of authentication result, name by name, and of the whole field. */
module AuthResText {
  import opened Text
  import opened Strings
  import opened Decimal
  import opened Sorting
  import opened AuthRes
  import opened AuthResRoundTrip

  /** The word of a parameter with the text `t`, unless its value is empty. */
  function Opt(k: string, value: string, t: string): seq<string> {
    if value == "" then [] else [k + "=" + t]
  }

  /** A result as it is printed: a new line, the method and the value, and then the words, one blank between two. */
  function Line(head: string, words: seq<string>): string {
    "\r\n  " + head + " " + Join(words, " ")
  }

  function Reason(reason: string): seq<string> {
    Opt("reason", reason, ValueText(reason))
  }

  function Property(k: string, value: string): seq<string> {
    Opt(k, value, PvalueText(value))
  }

  lemma {:induction false} WordsAdd(keys: seq<string>, k: string, params: Params)
    requires k in params && forall x :: x in keys ==> x in params
    ensures forall x :: x in keys + [k] ==> x in params
    ensures Words(keys + [k], params) == Words(keys, params) + Opt(k, params[k], Printed(k, params[k]))
  {
    assert (keys + [k])[..|keys|] == keys;
  }

  /** The words in front: the reason, if there is one. */
  function Front(params: Params): seq<string> {
    if "reason" in params && params["reason"] != "" then ["reason"] else []
  }

  lemma {:induction false} FrontWords(params: Params)
    ensures Words(Front(params), params) == if "reason" in params then Reason(params["reason"]) else []
  {
    if "reason" in params && params["reason"] != "" {
      WordsAdd([], "reason", params);
      assert [] + ["reason"] == ["reason"];
      assert Words([], params) + Opt("reason", params["reason"], ValueText(params["reason"]))
          == Opt("reason", params["reason"], ValueText(params["reason"]));
    }
  }

  lemma {:induction false} OrderIs(params: Params, keys: seq<string>)
    requires StrictlySorted(keys) && forall k :: k in keys <==> k in params && k != "reason"
    ensures KeyOrder(params) == Front(params) + keys
  {
    SortedUnique(keys, SortedKeys(params.Keys - {"reason"}));
  }

  lemma {:induction false} JoinsOn(a: seq<string>, b: seq<string>, c: seq<string>)
    ensures a + b + c == a + (b + c)
  {
  }

  lemma {:induction false} WordsAppend(front: seq<string>, keys: seq<string>, params: Params)
    requires forall x :: x in front ==> x in params
    requires forall x :: x in keys ==> x in params
    ensures forall x :: x in front + keys ==> x in params
    ensures Words(front + keys, params) == Words(front, params) + Words(keys, params)
  {
    if keys == [] {
      assert front + [] == front && Words(front, params) + [] == Words(front, params);
    } else {
      var init, k := keys[..|keys| - 1], keys[|keys| - 1];
      WordsAppend(front, init, params);
      WordsAdd(front + init, k, params);
      WordsAdd(init, k, params);
      assert init + [k] == keys && front + keys == front + init + [k];
      var word := Opt(k, params[k], Printed(k, params[k]));
      JoinsOn(Words(front, params), Words(init, params), word);
    }
  }

  /** The reason, and then the other parameters in byte order. */
  lemma {:induction false} ParamsAre(params: Params, keys: seq<string>)
    requires StrictlySorted(keys) && forall k :: k in keys <==> k in params && k != "reason"
    ensures ParamsText(params)
         == Join((if "reason" in params then Reason(params["reason"]) else []) + Words(keys, params), " ")
  {
    OrderIs(params, keys);
    FrontWords(params);
    WordsAppend(Front(params), keys, params);
  }

  lemma {:induction false} OneWord(params: Params, a: string)
    requires a in params && a != "reason"
    ensures Words([a], params) == Property(a, params[a])
  {
    WordsAdd([], a, params);
    assert [] + [a] == [a] && [] + Property(a, params[a]) == Property(a, params[a]);
  }

  lemma {:induction false} TwoWords(params: Params, a: string, b: string)
    requires a in params && b in params && a != "reason" && b != "reason"
    ensures Words([a, b], params) == Property(a, params[a]) + Property(b, params[b])
  {
    OneWord(params, a);
    WordsAdd([a], b, params);
    assert [a] + [b] == [a, b];
  }

  lemma {:induction false} ThreeWords(params: Params, a: string, b: string, c: string)
    requires a in params && b in params && c in params && a != "reason" && b != "reason" && c != "reason"
    ensures Words([a, b, c], params) == Property(a, params[a]) + Property(b, params[b]) + Property(c, params[c])
  {
    TwoWords(params, a, b);
    WordsAdd([a, b], c, params);
    assert [a, b] + [c] == [a, b, c];
  }

  lemma {:induction false} FourWords(params: Params, a: string, b: string, c: string, d: string)
    requires a in params && b in params && c in params && d in params
    requires a != "reason" && b != "reason" && c != "reason" && d != "reason"
    ensures Words([a, b, c, d], params)
         == Property(a, params[a]) + Property(b, params[b]) + Property(c, params[c]) + Property(d, params[d])
  {
    ThreeWords(params, a, b, c);
    WordsAdd([a, b, c], d, params);
    assert [a, b, c] + [d] == [a, b, c, d];
  }

  lemma {:induction false} SegmentLine(r: Result, head: string, words: seq<string>)
    requires head == MethodOf(r) + "=" + r.value && ParamsText(ParamsOf(r)) == Join(words, " ")
    ensures Segment(r) == Line(head, words)
  {
    SegmentIs(r);
  }

  lemma {:induction false} OneParam(reason: string, a: string, x: string)
    requires a != "reason"
    ensures ParamsText(map["reason" := reason, a := x]) == Join(Reason(reason) + Property(a, x), " ")
    ensures ParamsText(map[a := x]) == Join([] + Property(a, x), " ")
  {
    var with, without := map["reason" := reason, a := x], map[a := x];
    ParamsAre(with, [a]);
    ParamsAre(without, [a]);
    OneWord(with, a);
    OneWord(without, a);
  }

  lemma {:induction false} TwoParams(reason: string, a: string, x: string, b: string, y: string)
    requires a != "reason" && b != "reason" && Less(a, b)
    ensures ParamsText(map["reason" := reason, a := x, b := y])
         == Join(Reason(reason) + (Property(a, x) + Property(b, y)), " ")
  {
    LessTotal(a, a);
    var params := map["reason" := reason, a := x, b := y];
    ParamsAre(params, [a, b]);
    TwoWords(params, a, b);
  }

  lemma {:induction false} TwoParamsOnly(a: string, x: string, b: string, y: string)
    requires a != "reason" && b != "reason" && Less(a, b)
    ensures ParamsText(map[a := x, b := y]) == Join([] + (Property(a, x) + Property(b, y)), " ")
  {
    LessTotal(a, a);
    var params := map[a := x, b := y];
    ParamsAre(params, [a, b]);
    TwoWords(params, a, b);
  }

  lemma {:induction false} ThreeParams(reason: string, a: string, x: string, b: string, y: string, c: string, z: string)
    requires a != "reason" && b != "reason" && c != "reason" && Less(a, b) && Less(b, c)
    ensures ParamsText(map["reason" := reason, a := x, b := y, c := z])
         == Join(Reason(reason) + (Property(a, x) + Property(b, y) + Property(c, z)), " ")
  {
    LessTotal(a, a);
    LessTotal(b, b);
    LessTransitive(a, b, c);
    LessTotal(c, c);
    ThreeValues(reason, a, x, b, y, c, z);
    ThreeOf(map["reason" := reason, a := x, b := y, c := z], reason, a, b, c);
  }

  lemma {:induction false} ThreeValues(reason: string, a: string, x: string, b: string, y: string, c: string, z: string)
    requires a != "reason" && b != "reason" && c != "reason" && a != b && a != c && b != c
    ensures var params := map["reason" := reason, a := x, b := y, c := z];
            && params.Keys == {"reason", a, b, c} && params["reason"] == reason
            && params[a] == x && params[b] == y && params[c] == z
  {
  }

  lemma {:induction false} ThreeOf(params: Params, reason: string, a: string, b: string, c: string)
    requires a != "reason" && b != "reason" && c != "reason" && Less(a, b) && Less(b, c) && Less(a, c)
    requires params.Keys == {"reason", a, b, c} && params["reason"] == reason
    ensures ParamsText(params)
         == Join(Reason(reason) + (Property(a, params[a]) + Property(b, params[b]) + Property(c, params[c])), " ")
  {
    ParamsAre(params, [a, b, c]);
    ThreeWords(params, a, b, c);
  }

  lemma {:induction false} FourSorted(a: string, b: string, c: string, d: string)
    requires Less(a, b) && Less(b, c) && Less(c, d)
    ensures StrictlySorted([a, b, c, d]) && a != b && a != c && a != d && b != c && b != d && c != d
  {
    LessTransitive(a, b, c);
    LessTransitive(b, c, d);
    LessTransitive(a, c, d);
    LessTotal(a, a);
    LessTotal(b, b);
    LessTotal(c, c);
  }

  lemma {:induction false} FourValues(reason: string, a: string, x: string, b: string, y: string, c: string, z: string,
                                      d: string, u: string)
    requires a != "reason" && b != "reason" && c != "reason" && d != "reason"
    requires a != b && a != c && a != d && b != c && b != d && c != d
    ensures var params := map["reason" := reason, a := x, b := y, c := z, d := u];
            && params.Keys == {"reason", a, b, c, d} && params["reason"] == reason
            && params[a] == x && params[b] == y && params[c] == z && params[d] == u
  {
  }

  lemma {:induction false} FourParams(params: Params, reason: string, a: string, b: string, c: string, d: string)
    requires a != "reason" && b != "reason" && c != "reason" && d != "reason"
    requires Less(a, b) && Less(b, c) && Less(c, d)
    requires params.Keys == {"reason", a, b, c, d} && params["reason"] == reason
    ensures ParamsText(params)
         == Join(Reason(reason) + (Property(a, params[a]) + Property(b, params[b]) + Property(c, params[c])
                                   + Property(d, params[d])), " ")
  {
    FourSorted(a, b, c, d);
    ParamsAre(params, [a, b, c, d]);
    FourWords(params, a, b, c, d);
  }

  lemma {:induction false} FourParamLine(r: Result, m: string, reason: string, a: string, x: string, b: string,
                                         y: string, c: string, z: string, d: string, u: string)
    requires a != "reason" && b != "reason" && c != "reason" && d != "reason"
    requires Less(a, b) && Less(b, c) && Less(c, d) && MethodOf(r) == m
    requires ParamsOf(r) == map["reason" := reason, a := x, b := y, c := z, d := u]
    ensures Segment(r) == Line(m + "=" + r.value, Reason(reason) + (Property(a, x) + Property(b, y) + Property(c, z)
                                                                    + Property(d, u)))
  {
    FourSorted(a, b, c, d);
    FourValues(reason, a, x, b, y, c, z, d, u);
    FourParams(ParamsOf(r), reason, a, b, c, d);
    SegmentLine(r, m + "=" + r.value,
                Reason(reason) + (Property(a, x) + Property(b, y) + Property(c, z) + Property(d, u)));
  }

  lemma {:induction false} ThreeParamLine(r: Result, m: string, reason: string, a: string, x: string, b: string,
                                          y: string, c: string, z: string)
    requires a != "reason" && b != "reason" && c != "reason" && Less(a, b) && Less(b, c) && MethodOf(r) == m
    requires ParamsOf(r) == map["reason" := reason, a := x, b := y, c := z]
    ensures Segment(r) == Line(m + "=" + r.value, Reason(reason) + (Property(a, x) + Property(b, y) + Property(c, z)))
  {
    ThreeParams(reason, a, x, b, y, c, z);
    SegmentLine(r, m + "=" + r.value, Reason(reason) + (Property(a, x) + Property(b, y) + Property(c, z)));
  }

  lemma {:induction false} OneParamLine(r: Result, m: string, reason: string, a: string, x: string)
    requires a != "reason" && MethodOf(r) == m && ParamsOf(r) == map["reason" := reason, a := x]
    ensures Segment(r) == Line(m + "=" + r.value, Reason(reason) + Property(a, x))
  {
    OneParam(reason, a, x);
    SegmentLine(r, m + "=" + r.value, Reason(reason) + Property(a, x));
  }

  lemma {:induction false} TwoParamLine(r: Result, m: string, reason: string, a: string, x: string, b: string,
                                        y: string)
    requires a != "reason" && b != "reason" && Less(a, b) && MethodOf(r) == m
    requires ParamsOf(r) == map["reason" := reason, a := x, b := y]
    ensures Segment(r) == Line(m + "=" + r.value, Reason(reason) + (Property(a, x) + Property(b, y)))
  {
    TwoParams(reason, a, x, b, y);
    SegmentLine(r, m + "=" + r.value, Reason(reason) + (Property(a, x) + Property(b, y)));
  }

  // ----- the orders of the names

  lemma {:induction false} HeaderOrder()
    ensures Less("header.b", "header.d") && Less("header.d", "header.i") && Less("header.i", "header.s")
  {
    LessIs("header.", 'b', "", 'd', "");
    LessIs("header.", 'd', "", 'i', "");
    LessIs("header.", 'i', "", 's', "");
    assert "header." + ['b'] + "" == "header.b" && "header." + ['d'] + "" == "header.d";
    assert "header." + ['i'] + "" == "header.i" && "header." + ['s'] + "" == "header.s";
  }

  lemma {:induction false} FromOrder()
    ensures Less("header.d", "header.from") && Less("header.from", "header.sender")
  {
    LessIs("header.", 'd', "", 'f', "rom");
    LessIs("header.", 'f', "rom", 's', "ender");
    assert "header." + ['d'] + "" == "header.d" && "header." + ['f'] + "rom" == "header.from";
    assert "header." + ['s'] + "ender" == "header.sender";
  }

  lemma {:induction false} SmtpOrder()
    ensures Less("smtp.helo", "smtp.mailfrom")
  {
    LessIs("smtp.", 'h', "elo", 'm', "ailfrom");
    assert "smtp." + ['h'] + "elo" == "smtp.helo" && "smtp." + ['m'] + "ailfrom" == "smtp.mailfrom";
  }

  lemma {:induction false} FirstByte(a: string, b: string)
    requires a != "" && b != "" && a[0] < b[0]
    ensures Less(a, b)
  {
  }

  lemma {:induction false} ArcOrder()
    ensures Less("header.oldest-pass", "smtp.remote-ip")
  {
    FirstByte("header.oldest-pass", "smtp.remote-ip");
  }

  // ----- the text of each result

  lemma {:induction false} NotReason(k: string)
    requires k != "" && k[0] != 'r'
    ensures k != "reason"
  {
    assert "reason"[0] == 'r';
  }

  lemma {:induction false} SpfParams(v: string, reason: string, from: string, helo: string)
    ensures ParamsOf(Spf(v, reason, from, helo))
         == map["reason" := reason, "smtp.helo" := helo, "smtp.mailfrom" := from]
  {
  }

  lemma {:induction false} SpfText(v: string, reason: string, from: string, helo: string)
    ensures Segment(Spf(v, reason, from, helo))
         == Line("spf" + "=" + v, Reason(reason) + (Property("smtp.helo", helo) + Property("smtp.mailfrom", from)))
  {
    SmtpOrder();
    NotReason("smtp.helo");
    NotReason("smtp.mailfrom");
    SpfParams(v, reason, from, helo);
    TwoParamLine(Spf(v, reason, from, helo), "spf", reason, "smtp.helo", helo, "smtp.mailfrom", from);
  }

  lemma {:induction false} DmarcText(v: string, reason: string, from: string)
    ensures Segment(Dmarc(v, reason, from)) == Line("dmarc" + "=" + v, Reason(reason) + Property("header.from", from))
  {
    NotReason("header.from");
    OneParamLine(Dmarc(v, reason, from), "dmarc", reason, "header.from", from);
  }

  lemma {:induction false} IPRevText(v: string, reason: string, ip: string)
    ensures Segment(IPRev(v, reason, ip)) == Line("iprev" + "=" + v, Reason(reason) + Property("policy.iprev", ip))
  {
    NotReason("policy.iprev");
    OneParamLine(IPRev(v, reason, ip), "iprev", reason, "policy.iprev", ip);
  }

  lemma {:induction false} AuthText(v: string, reason: string, auth: string)
    ensures Segment(Auth(v, reason, auth)) == Line("auth" + "=" + v, [] + Property("smtp.auth", auth))
  {
    NotReason("smtp.auth");
    OneParam(reason, "smtp.auth", auth);
    SegmentLine(Auth(v, reason, auth), "auth" + "=" + v, [] + Property("smtp.auth", auth));
  }

  lemma {:induction false} SenderIDText(v: string, reason: string, key: string, x: string)
    ensures Segment(SenderID(v, reason, key, x))
         == Line("sender-id" + "=" + v, Reason(reason) + Property("header." + ToLower(key), x))
  {
    var k := "header." + ToLower(key);
    assert k[0] == 'h';
    NotReason(k);
    OneParamLine(SenderID(v, reason, key, x), "sender-id", reason, k, x);
  }

  lemma {:induction false} DkimText(v: string, reason: string, d: string, i: string, s: string, b: string)
    ensures Segment(Dkim(v, reason, d, i, s, b))
         == Line("dkim" + "=" + v, Reason(reason) + (Property("header.b", b) + Property("header.d", d)
                                                + Property("header.i", i) + Property("header.s", s)))
  {
    HeaderOrder();
    NotReason("header.b");
    NotReason("header.d");
    NotReason("header.i");
    NotReason("header.s");
    DkimMap(v, reason, d, i, s, b);
    FourParamLine(Dkim(v, reason, d, i, s, b), "dkim", reason, "header.b", b, "header.d", d, "header.i", i,
                  "header.s", s);
  }

  lemma {:induction false} DkimMap(v: string, reason: string, d: string, i: string, s: string, b: string)
    ensures ParamsOf(Dkim(v, reason, d, i, s, b))
         == map["reason" := reason, "header.b" := b, "header.d" := d, "header.i" := i, "header.s" := s]
  {
    DkimParams(Dkim(v, reason, d, i, s, b));
  }

  lemma {:induction false} DomainKeysText(v: string, reason: string, d: string, from: string, sender: string)
    ensures Segment(DomainKeys(v, reason, d, from, sender))
         == Line("domainkeys" + "=" + v, Reason(reason) + (Property("header.d", d) + Property("header.from", from)
                                                      + Property("header.sender", sender)))
  {
    FromOrder();
    NotReason("header.d");
    NotReason("header.from");
    NotReason("header.sender");
    ThreeParamLine(DomainKeys(v, reason, d, from, sender), "domainkeys", reason, "header.d", d, "header.from", from,
                   "header.sender", sender);
  }

  /** ARC prints without a method, and the number of the oldest pass only when it is positive. */
  lemma {:induction false} ArcText(v: string, ip: string, n: int)
    ensures Segment(Arc(v, ip, n))
         == Line("" + "=" + v, [] + (Property("header.oldest-pass", if n > 0 then FormatInt(n) else "")
                                + Property("smtp.remote-ip", ip)))
  {
    var oldest := if n > 0 then FormatInt(n) else "";
    ArcOrder();
    NotReason("header.oldest-pass");
    NotReason("smtp.remote-ip");
    TwoParamsOnly("header.oldest-pass", oldest, "smtp.remote-ip", ip);
    ArcMap(v, ip, n);
    SegmentLine(Arc(v, ip, n), "" + "=" + v,
                [] + (Property("header.oldest-pass", oldest) + Property("smtp.remote-ip", ip)));
  }

  lemma {:induction false} ArcMap(v: string, ip: string, n: int)
    ensures ParamsOf(Arc(v, ip, n))
         == map["header.oldest-pass" := if n > 0 then FormatInt(n) else "", "smtp.remote-ip" := ip]
  {
  }

  // ----- the whole field, and quoting

  lemma {:induction false} OneSegment(r: Result)
    ensures Segments([r]) == [Segment(r)] && Segments([]) == []
  {
  }

  lemma {:induction false} SegmentsSnoc(results: seq<Result>, r: Result)
    ensures Segments(results + [r]) == Segments(results) + [Segment(r)]
  {
  }

  /** Without results the field says `none`. */
  lemma {:induction false} EmptyField(id: string)
    ensures FieldText(id, []) == id + ";\r\n  none"
  {
    JoinTwo(id, "\r\n  none");
    assert id + ";" + "\r\n  none" == id + ";\r\n  none";
  }

  /** Otherwise the identifier comes first, and then a semicolon and its text for each result. */
  lemma {:induction false} FieldIs(id: string, results: seq<Result>, r: Result)
    ensures FieldText(id, results + [r])
         == (if results == [] then id else FieldText(id, results)) + ";" + Segment(r)
  {
    SegmentsSnoc(results, r);
    if results == [] {
      JoinTwo(id, Segment(r));
      OneSegment(r);
      assert results + [r] == [r];
    } else {
      JoinOneMore(id, Segments(results), Segment(r));
    }
  }

  predicate NeedsQuotes(c: char) {
    c <= ' ' || c in "()<>@,;:\\\"/[]?="
  }

  predicate InAddress(c: char) {
    'a' <= c <= 'z' || 'A' <= c <= 'Z' || '0' <= c <= '9' || c in "#$%&'*+,./-@[]\\^_`{|}~"
  }

  lemma {:induction false} SpecialIs(c: char)
    ensures IsSpecial(c) <==> NeedsQuotes(c)
  {
  }

  lemma {:induction false} AddressIs(c: char)
    ensures IsAddressChar(c) <==> InAddress(c)
  {
  }

  /** Text is quoted exactly when some character asks for it. */
  lemma {:induction false} QuotedExactly(s: string)
    ensures ValueText(s) == if NoneOf(s, NeedsQuotes) then s else "\"" + EscapeQuotes(s) + "\""
  {
    forall c ensures IsSpecial(c) <==> NeedsQuotes(c) {
      SpecialIs(c);
    }
  }

  /** A property made of address characters never is. */
  lemma {:induction false} PropertyQuotedExactly(s: string)
    ensures PvalueText(s) == if AllOf(s, InAddress) then s else ValueText(s)
  {
    forall c ensures IsAddressChar(c) <==> InAddress(c) {
      AddressIs(c);
    }
  }

  lemma {:induction false} Regrouped(e: string, x: string, m: string, y: string)
    ensures e + (x + m + y) == e + x + m + y
  {
  }

  lemma {:induction false} PlainIsKept(a: string)
    requires '"' !in a
    ensures EscapeQuotes(a) == a
  {
    if a != "" {
      PlainIsKept(a[1..]);
      assert a[0] in a && a == [a[0]] + a[1..];
    }
  }

  /** Within quotes every quote gets a backslash in front of it, and nothing else changes (`PlainIsKept`). */
  lemma {:induction false} EscapedIs(a: string, b: string)
    ensures EscapeQuotes(a + "\"" + b) == EscapeQuotes(a) + "\\\"" + EscapeQuotes(b)
  {
    if a == "" {
      assert "" + "\"" + b == "\"" + b && ("\"" + b)[1..] == b;
      assert "" + "\\\"" + EscapeQuotes(b) == "\\\"" + EscapeQuotes(b);
    } else {
      EscapedIs(a[1..], b);
      assert (a + "\"" + b)[1..] == a[1..] + "\"" + b;
      var e := if a[0] == '"' then "\\\"" else [a[0]];
      Regrouped(e, EscapeQuotes(a[1..]), "\\\"", EscapeQuotes(b));
    }
  }
}
