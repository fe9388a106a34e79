/**
 The history of a session read off its lines: which recipients and sender a
 delivered envelope has, in terms of the verbs that came, and the order in which
 a session goes.
 */
module SessionLines {
  import opened Text
  import opened Strings
  import opened Session
  import opened CommandLines

  // ----- resets and addresses, as the lines have them

  /** HELO, EHLO or RSET as it came, a message that was handed over, or a TLS upgrade. */
  ghost predicate EndsTransaction(e: Event) {
    match e
    case Exchange(line, _, _) => StartsWith(line, "HELO") || StartsWith(line, "EHLO") || StartsWith(line, "RSET")
    case Message(read, _, _, _) => read.Complete?
    case Upgrade(success) => success
    case Said(_) => false
  }

  /** The addresses of the lines RCPT TO: answered with success since the last end of a transaction, in order. */
  ghost function RecipientsAsked(cfg: Config, trace: seq<Event>): seq<Option<Address>> {
    if trace == [] then []
    else
      var e, before := trace[|trace| - 1], RecipientsAsked(cfg, trace[..|trace| - 1]);
      if EndsTransaction(e) then []
      else if e.Exchange? && StartsWith(e.line, "RCPT TO:") && e.reply == SuccessRcpt then
        before + [cfg.parseAddress(TrimSpace(e.line[|"RCPT TO:"|..]))]
      else before
  }

  /** The same for the lines MAIL FROM:, whose address ends at the first blank. */
  ghost function SendersAsked(cfg: Config, trace: seq<Event>): seq<Option<Address>> {
    if trace == [] then []
    else
      var e, before := trace[|trace| - 1], SendersAsked(cfg, trace[..|trace| - 1]);
      if EndsTransaction(e) then []
      else if e.Exchange? && StartsWith(e.line, "MAIL FROM:") && e.reply == SuccessMail then
        before + [cfg.parseAddress(Cut(TrimSpace(e.line[|"MAIL FROM:"|..]), ' ').before)]
      else before
  }

  lemma {:induction false} RestIs(line: string, verb: string)
    requires StartsWith(line, verb)
    ensures |verb| <= |line| && Spells(line, verb, line[|verb|..])
  {
  }

  lemma {:induction false} ResetLines(cfg: Config, line: string)
    ensures StartsWith(line, "HELO") <==> ParseRequest(cfg, line).HeloRequest?
    ensures StartsWith(line, "EHLO") <==> ParseRequest(cfg, line).EhloRequest?
    ensures StartsWith(line, "RSET") <==> ParseRequest(cfg, line) == Plain(Rset)
  {
    if StartsWith(line, "HELO") {
      RestIs(line, "HELO");
      HeloLine(cfg, line, line[|"HELO"|..]);
    }
    if StartsWith(line, "EHLO") {
      RestIs(line, "EHLO");
      EhloLine(cfg, line, line[|"EHLO"|..]);
    }
    if StartsWith(line, "RSET") {
      RestIs(line, "RSET");
      RsetLine(cfg, line, line[|"RSET"|..]);
    }
    ResetRequests(cfg, line);
  }

  lemma {:induction false} ResetRequests(cfg: Config, line: string)
    ensures ParseRequest(cfg, line).HeloRequest? ==> StartsWith(line, "HELO")
    ensures ParseRequest(cfg, line).EhloRequest? ==> StartsWith(line, "EHLO")
    ensures ParseRequest(cfg, line) == Plain(Rset) ==> StartsWith(line, "RSET")
  {
    SwitchIs(cfg, line);
    SpelledMatches(line, "HELO");
    SpelledMatches(line, "EHLO");
    SpelledMatches(line, "RSET");
  }

  lemma {:induction false} AddressLines(cfg: Config, line: string)
    ensures StartsWith(line, "RCPT TO:") <==> ParseRequest(cfg, line).RcptRequest?
    ensures StartsWith(line, "RCPT TO:") ==>
              ParseRequest(cfg, line) == RcptRequest(cfg.parseAddress(TrimSpace(line[|"RCPT TO:"|..])))
    ensures StartsWith(line, "MAIL FROM:") <==> ParseRequest(cfg, line).MailRequest?
    ensures StartsWith(line, "MAIL FROM:") ==>
              ParseRequest(cfg, line).from
              == cfg.parseAddress(Cut(TrimSpace(line[|"MAIL FROM:"|..]), ' ').before)
  {
    SwitchIs(cfg, line);
    SpelledMatches(line, "RCPT TO:");
    SpelledMatches(line, "MAIL FROM:");
    if StartsWith(line, "RCPT TO:") {
      RestIs(line, "RCPT TO:");
      RcptLine(cfg, line, line[|"RCPT TO:"|..]);
    }
    if StartsWith(line, "MAIL FROM:") {
      RestIs(line, "MAIL FROM:");
      MailAddress(cfg, line, line[|"MAIL FROM:"|..]);
    }
  }

  lemma {:induction false} MailAddress(cfg: Config, line: string, rest: string)
    requires Spells(line, "MAIL FROM:", rest)
    ensures ParseRequest(cfg, line).MailRequest?
    ensures ParseRequest(cfg, line).from == cfg.parseAddress(Cut(TrimSpace(rest), ' ').before)
  {
    var t := TrimSpace(rest);
    IndexOfFirst(t, ' ');
    var i := IndexOf(t, ' ');
    if i < |t| {
      assert t == t[..i] + " " + t[i + 1..];
      MailLine(cfg, line, rest, t[..i], t[i + 1..]);
    } else {
      MailLine(cfg, line, rest, t, "");
    }
  }

  /** An event of a run: its request is that of its line, and its message was handed over when it was complete. */
  predicate EventOk(cfg: Config, e: Event) {
    && (e.Exchange? ==> e.request == ParseRequest(cfg, e.line))
    && (e.Message? ==> (e.delivered.Some? <==> e.read.Complete?))
  }

  predicate EventsOk(cfg: Config, trace: seq<Event>) {
    forall i :: 0 <= i < |trace| ==> EventOk(cfg, trace[i])
  }

  lemma {:induction false} EventReads(cfg: Config, e: Event)
    requires EventOk(cfg, e)
    ensures IsReset(e) <==> EndsTransaction(e)
    ensures AcceptsRcpt(e) <==> e.Exchange? && StartsWith(e.line, "RCPT TO:") && e.reply == SuccessRcpt
    ensures AcceptsMail(e) <==> e.Exchange? && StartsWith(e.line, "MAIL FROM:") && e.reply == SuccessMail
  {
    if e.Exchange? {
      ResetLines(cfg, e.line);
      AddressLines(cfg, e.line);
    }
  }

  lemma {:induction false} AskedIs(cfg: Config, trace: seq<Event>)
    requires EventsOk(cfg, trace)
    ensures Recipients(trace) == RecipientsAsked(cfg, trace) && Senders(trace) == SendersAsked(cfg, trace)
  {
    if trace != [] {
      var e := trace[|trace| - 1];
      AskedIs(cfg, trace[..|trace| - 1]);
      EventReads(cfg, e);
      if e.Exchange? {
        AddressLines(cfg, e.line);
      }
    }
  }

  /** A delivered envelope has these recipients, at least one, and this sender, if any. */
  ghost predicate CarriesAsked(cfg: Config, e: EnvelopeValue, before: seq<Event>) {
    && e.rcptTo != [] && Somes(e.rcptTo) == RecipientsAsked(cfg, before)
    && SendersAsked(cfg, before) == (if e.mailFrom.Some? then [e.mailFrom] else [])
  }

  /**
   In every run each delivered envelope carries exactly the recipients of the RCPT
   lines accepted since the last line HELO, EHLO or RSET, delivered message or
   upgrade, and the sender of the MAIL line accepted since then.
   */
  lemma {:induction false} DeliveredAsAsked(cfg: Config, peer: string, handshakeSucceeds: bool, inputs: seq<Input>,
                                            i: nat)
    requires var trace := Run(cfg, Open(cfg, peer, handshakeSucceeds), inputs).trace;
             i < |trace| && trace[i].Message?
    ensures var trace := Run(cfg, Open(cfg, peer, handshakeSucceeds), inputs).trace;
            && (trace[i].delivered.Some? <==> trace[i].read.Complete?)
            && (trace[i].delivered.Some? ==> CarriesAsked(cfg, trace[i].delivered.value, trace[..i]))
  {
    var trace := Run(cfg, Open(cfg, peer, handshakeSucceeds), inputs).trace;
    DeliveredEnvelopesMatchHistory(cfg, peer, handshakeSucceeds, inputs);
    assert DeliveryAgrees(trace[i], trace[..i]);
    forall j | 0 <= j < i ensures EventOk(cfg, trace[j]) {
      if trace[j].Message? {
        assert DeliveryAgrees(trace[j], trace[..j]);
      }
    }
    AskedIs(cfg, trace[..i]);
  }
}
