/**
 What a delivered envelope carries besides its sender and recipients, in terms of
 the history of the session. A reset replaces the envelope, so all its marks
 speak of what has happened since then only; that includes the TLS mark, which a
 successful STARTTLS sets and loses in the same turn.
 */
module SessionEnvelope {
  import opened Text
  import opened Strings
  import opened Session

  // ----- the history functions

  predicate NoReset(trace: seq<Event>) {
    forall i :: 0 <= i < |trace| ==> !IsReset(trace[i])
  }

  /** The value of the last token KEY=VALUE for `key`, or what was there before. */
  function LastToken(key: string, before: string, toks: seq<string>): string {
    if toks == [] then before
    else
      var c := Cut(toks[|toks| - 1], '=');
      if c.found && c.after != "[UNAVAILABLE]" && c.before == key then c.after
      else LastToken(key, before, toks[..|toks| - 1])
  }

  /** The name given by the last HELO, EHLO or XCLIENT since the last reset. */
  function HeloName(trace: seq<Event>): string {
    if trace == [] then ""
    else
      var e, before := trace[|trace| - 1], trace[..|trace| - 1];
      if e.Exchange? && e.request.HeloRequest? then e.request.name
      else if e.Exchange? && e.request.EhloRequest? then e.request.name
      else if e.Exchange? && e.request.XClientRequest? then LastToken("HELO", HeloName(before), e.request.toks)
      else if IsReset(e) then ""
      else HeloName(before)
  }

  /** The last reset was an EHLO. */
  predicate GreetedByEhlo(trace: seq<Event>) {
    if trace == [] then false
    else
      var e := trace[|trace| - 1];
      if IsReset(e) then e.Exchange? && e.request.EhloRequest? else GreetedByEhlo(trace[..|trace| - 1])
  }

  /** A MAIL that was looked at since the last reset asked for SMTPUTF8. */
  predicate AskedForUtf8(trace: seq<Event>) {
    if trace == [] then false
    else
      var e, before := trace[|trace| - 1], trace[..|trace| - 1];
      if IsReset(e) then false
      else
        (e.Exchange? && e.request.MailRequest? && e.request.utf8 && e.reply != FailNestedMail)
        || AskedForUtf8(before)
  }

  function ProxyAddress(cfg: Config, before: string, toks: seq<string>): string {
    if |toks| == 5 then cfg.parseIP(toks[1]) else if |toks| == 6 then cfg.parseIP(toks[2]) else before
  }

  /** The last ADDR of an XCLIENT, if it had one, as an address. */
  function XClientAddress(cfg: Config, before: string, toks: seq<string>): string {
    if toks == [] then before
    else
      var c := Cut(toks[|toks| - 1], '=');
      if c.found && c.after != "[UNAVAILABLE]" && c.before == "ADDR" then cfg.parseIP(c.after)
      else XClientAddress(cfg, before, toks[..|toks| - 1])
  }

  /**
   The address given by the last XCLIENT or PROXY, or by a handler, which no
   reset takes back; before all of them that of the peer.
   */
  function AddressOf(cfg: Config, peer: string, trace: seq<Event>): string {
    if trace == [] then peer
    else
      var e, before := trace[|trace| - 1], AddressOf(cfg, peer, trace[..|trace| - 1]);
      if e.Exchange? && e.request.XClientRequest? then XClientAddress(cfg, before, e.request.toks)
      else if e.Exchange? && e.request.ProxyRequest? then ProxyAddress(cfg, before, e.request.toks)
      else if e.Message? && e.delivered.Some? then e.left
      else before
  }

  /** The session opened with a handshake, on a server that is always on TLS. */
  predicate OpenedWithTLS(cfg: Config, handshakeSucceeds: bool) {
    cfg.tlsAlwaysOn && cfg.hasTLS && handshakeSucceeds
  }

  datatype Origin = Origin(cfg: Config, peer: string, tls: bool)

  /** The marks of an envelope are those of the history before it. */
  predicate MarksAgree(o: Origin, e: EnvelopeValue, trace: seq<Event>) {
    && (e.tls <==> o.tls && NoReset(trace))
    && e.helo == HeloName(trace)
    && (e.esmtp <==> GreetedByEhlo(trace))
    && (e.utf8 <==> AskedForUtf8(trace))
    && e.remoteAddr == AddressOf(o.cfg, o.peer, trace)
  }

  /** A delivered envelope has the marks of the history before it and the text of its own message only. */
  predicate DeliveryMarked(o: Origin, m: Event, before: seq<Event>)
    requires m.Message?
  {
    m.delivered.Some? ==> MarksAgree(o, m.delivered.value, before) && m.delivered.value.data == m.read.text
  }

  predicate DeliveriesMarked(o: Origin, trace: seq<Event>) {
    forall i :: 0 <= i < |trace| && trace[i].Message? ==> DeliveryMarked(o, trace[i], trace[..i])
  }

  predicate MarksInv(o: Origin, s: Session) {
    && MarksAgree(o, s.env, s.trace)
    && (s.killed || s.env.data == "")
    && DeliveriesMarked(o, s.trace)
  }

  // ----- one more event

  lemma {:induction false} NoResetSnoc(trace: seq<Event>, e: Event)
    ensures NoReset(trace + [e]) <==> NoReset(trace) && !IsReset(e)
  {
    assert (trace + [e])[|trace|] == e;
    assert forall i :: 0 <= i < |trace| ==> (trace + [e])[i] == trace[i];
  }

  lemma {:induction false} Shorter(trace: seq<Event>, e: Event)
    ensures var t := trace + [e]; t[..|t| - 1] == trace && t[|t| - 1] == e
  {
  }

  lemma {:induction false} MarkedSnoc(o: Origin, trace: seq<Event>, e: Event)
    requires DeliveriesMarked(o, trace) && (e.Message? ==> DeliveryMarked(o, e, trace))
    ensures DeliveriesMarked(o, trace + [e])
  {
    var t := trace + [e];
    forall i | 0 <= i < |t| && t[i].Message? ensures DeliveryMarked(o, t[i], t[..i]) {
      if i < |trace| {
        assert t[..i] == trace[..i];
      } else {
        assert t[..i] == trace;
      }
    }
  }

  /** An event that says nothing about the marks. */
  predicate IsPlain(e: Event) {
    && !IsReset(e)
    && (e.Exchange? ==> !e.request.XClientRequest? && !e.request.ProxyRequest? && !e.request.MailRequest?)
  }

  lemma {:induction false} PlainEvent(o: Origin, before: EnvelopeValue, after: EnvelopeValue, trace: seq<Event>,
                                      e: Event)
    requires MarksAgree(o, before, trace) && IsPlain(e)
    requires after == before.(rcptTo := after.rcptTo, mailFrom := after.mailFrom, data := after.data)
    ensures MarksAgree(o, after, trace + [e])
  {
    Shorter(trace, e);
    NoResetSnoc(trace, e);
  }

  lemma {:induction false} ResetMarks(o: Origin, before: EnvelopeValue, trace: seq<Event>, e: Event)
    requires MarksAgree(o, before, trace) && IsReset(e)
    requires e.Exchange? ==> e.request == Plain(Rset)
    ensures MarksAgree(o, Reset(if e.Message? then before.(remoteAddr := e.left) else before), trace + [e])
  {
    Shorter(trace, e);
    NoResetSnoc(trace, e);
  }

  lemma {:induction false} HelloMarks(o: Origin, before: EnvelopeValue, trace: seq<Event>, e: Event, ehlo: bool)
    requires MarksAgree(o, before, trace) && e.Exchange?
    requires if ehlo then e.request.EhloRequest? else e.request.HeloRequest?
    ensures MarksAgree(o, Reset(before).(helo := e.request.name, esmtp := ehlo), trace + [e])
  {
    Shorter(trace, e);
    NoResetSnoc(trace, e);
  }

  lemma {:induction false} TokensSet(cfg: Config, e: EnvelopeValue, toks: seq<string>)
    ensures XClientTokens(cfg, e, toks)
         == e.(remoteAddr := XClientAddress(cfg, e.remoteAddr, toks), helo := LastToken("HELO", e.helo, toks))
  {
    if toks != [] {
      TokensSet(cfg, e, toks[..|toks| - 1]);
    }
  }

  lemma {:induction false} XClientMarks(o: Origin, before: EnvelopeValue, trace: seq<Event>, e: Event)
    requires MarksAgree(o, before, trace) && e.Exchange? && e.request.XClientRequest?
    ensures MarksAgree(o, XClientTokens(o.cfg, before, e.request.toks), trace + [e])
  {
    TokensSet(o.cfg, before, e.request.toks);
    Shorter(trace, e);
    NoResetSnoc(trace, e);
  }

  lemma {:induction false} ProxyMarks(o: Origin, before: EnvelopeValue, trace: seq<Event>, e: Event)
    requires MarksAgree(o, before, trace) && e.Exchange? && e.request.ProxyRequest?
    ensures MarksAgree(
              o, before.(remoteAddr := ProxyAddress(o.cfg, before.remoteAddr, e.request.toks)), trace + [e])
  {
    Shorter(trace, e);
    NoResetSnoc(trace, e);
  }

  lemma {:induction false} MailMarks(o: Origin, before: EnvelopeValue, after: EnvelopeValue, trace: seq<Event>,
                                     e: Event)
    requires MarksAgree(o, before, trace) && e.Exchange? && e.request.MailRequest?
    requires after == before.(mailFrom := after.mailFrom,
                              utf8 := before.utf8 || (e.request.utf8 && e.reply != FailNestedMail))
    ensures MarksAgree(o, after, trace + [e])
  {
    Shorter(trace, e);
    NoResetSnoc(trace, e);
  }

  // ----- one turn

  lemma {:induction false} MailRequestMarks(o: Origin, s: Session, r: Request, e: Event)
    requires MarksAgree(o, s.env, s.trace) && r.MailRequest?
    requires e.Exchange? && e.request == r && e.reply == OnMail(s, r.from, r.utf8).reply
    ensures MarksAgree(o, OnMail(s, r.from, r.utf8).s.env, s.trace + [e])
  {
    MailMarks(o, s.env, OnMail(s, r.from, r.utf8).s.env, s.trace, e);
  }

  lemma {:induction false} PlainChanges(cfg: Config, s: Session, c: Command)
    ensures OnPlain(cfg, s, c).s.env == if c == Rset then Reset(s.env) else s.env
  {
    match c
    case Data =>
    case StartTLS =>
    case Quit =>
    case _ =>
  }

  lemma {:induction false} PlainRequestMarks(o: Origin, s: Session, c: Command, e: Event)
    requires MarksAgree(o, s.env, s.trace) && e.Exchange? && e.request == Plain(c)
    ensures MarksAgree(o, OnPlain(o.cfg, s, c).s.env, s.trace + [e])
  {
    PlainChanges(o.cfg, s, c);
    if c == Rset {
      ResetMarks(o, s.env, s.trace, e);
    } else {
      PlainEvent(o, s.env, s.env, s.trace, e);
    }
  }

  lemma {:induction false} RcptChanges(cfg: Config, s: Session, to: Option<Address>)
    ensures var e := OnRcpt(cfg, s, to).s.env; e == s.env.(rcptTo := e.rcptTo)
  {
  }

  lemma {:induction false} RcptRequestMarks(o: Origin, s: Session, to: Option<Address>, e: Event)
    requires MarksAgree(o, s.env, s.trace) && e.Exchange? && e.request.RcptRequest?
    ensures MarksAgree(o, OnRcpt(o.cfg, s, to).s.env, s.trace + [e])
  {
    RcptChanges(o.cfg, s, to);
    PlainEvent(o, s.env, OnRcpt(o.cfg, s, to).s.env, s.trace, e);
  }

  lemma {:induction false} ProxyRequestMarks(o: Origin, s: Session, toks: seq<string>, e: Event)
    requires MarksAgree(o, s.env, s.trace) && e.Exchange? && e.request == ProxyRequest(toks)
    ensures MarksAgree(o, OnProxy(o.cfg, s, toks).s.env, s.trace + [e])
  {
    ProxyMarks(o, s.env, s.trace, e);
  }

  lemma {:induction false} NamingRequestMarks(o: Origin, s: Session, r: Request, e: Event)
    requires MarksAgree(o, s.env, s.trace) && e.Exchange? && e.request == r
    requires r.HeloRequest? || r.EhloRequest? || r.XClientRequest?
    ensures MarksAgree(o, OnRequest(o.cfg, s, r).s.env, s.trace + [e])
  {
    if r.XClientRequest? {
      XClientMarks(o, s.env, s.trace, e);
    } else {
      HelloMarks(o, s.env, s.trace, e, r.EhloRequest?);
    }
  }

  lemma {:induction false} RequestMarks(o: Origin, s: Session, r: Request, e: Event)
    requires MarksAgree(o, s.env, s.trace)
    requires e.Exchange? && e.request == r && e.reply == OnRequest(o.cfg, s, r).reply
    ensures MarksAgree(o, OnRequest(o.cfg, s, r).s.env, s.trace + [e])
  {
    match r
    case ProxyRequest(toks) => ProxyRequestMarks(o, s, toks, e);
    case MailRequest(_, _) => MailRequestMarks(o, s, r, e);
    case RcptRequest(to) => RcptRequestMarks(o, s, to, e);
    case Plain(c) => PlainRequestMarks(o, s, c, e);
    case _ => NamingRequestMarks(o, s, r, e);
  }

  lemma {:induction false} MailKeepsData(s: Session, from: Option<Address>, utf8: bool)
    ensures OnMail(s, from, utf8).s.env.data == s.env.data
  {
    if !InTransaction(s.env) && from.None? {
      assert OnMail(s, from, utf8).reply == RejectedSender;
    }
  }

  lemma {:induction false} ProxyKeepsData(cfg: Config, s: Session, toks: seq<string>)
    ensures OnProxy(cfg, s, toks).s.env.data == s.env.data
  {
    if |toks| == 5 {
    } else if |toks| == 6 {
    } else {
    }
  }

  lemma {:induction false} RequestKeepsData(cfg: Config, s: Session, r: Request)
    requires s.env.data == ""
    ensures OnRequest(cfg, s, r).s.env.data == ""
  {
    match r
    case XClientRequest(toks) => TokensSet(cfg, s.env, toks);
    case ProxyRequest(toks) => ProxyKeepsData(cfg, s, toks);
    case MailRequest(from, utf8) => MailKeepsData(s, from, utf8);
    case RcptRequest(to) => RcptChanges(cfg, s, to);
    case Plain(c) => PlainChanges(cfg, s, c);
    case _ =>
  }

  lemma {:induction false} CommandKeepsMarks(o: Origin, s: Session, line: string, input: Input)
    requires MarksInv(o, s) && !s.killed
    ensures MarksInv(o, CommandTurn(o.cfg, s, line, input))
  {
    var r := ParseRequest(o.cfg, line);
    var eff := OnRequest(o.cfg, s, r);
    RequestEffectOk(o.cfg, s, r);
    RequestMarks(o, s, r, Exchange(line, r, eff.reply));
    RequestKeepsData(o.cfg, s, r);
    MarkedSnoc(o, s.trace, Exchange(line, r, eff.reply));
  }

  lemma {:induction false} DataKeepsMarks(o: Origin, s: Session, input: Input)
    requires MarksInv(o, s) && !s.killed
    ensures MarksInv(o, DataTurn(s, input))
  {
    if input.message.Complete? {
      CompleteKeepsMarks(o, s, input);
    } else {
      FailedKeepsMarks(o, s, input);
    }
  }

  lemma {:induction false} CompleteKeepsMarks(o: Origin, s: Session, input: Input)
    requires MarksInv(o, s) && !s.killed && input.message.Complete?
    ensures MarksInv(o, DataTurn(s, input))
  {
    var e := DataTurn(s, input).trace[|s.trace|];
    MarkedSnoc(o, s.trace, e);
    ResetMarks(o, s.env, s.trace, e);
  }

  lemma {:induction false} FailedKeepsMarks(o: Origin, s: Session, input: Input)
    requires MarksInv(o, s) && !s.killed && !input.message.Complete?
    ensures MarksInv(o, DataTurn(s, input))
  {
    match input.message
    case OverLimit(_) => NothingDelivered(o, s, Message(input.message, None, "", FailMessageSize), input);
    case ReadFailed(_) => NothingDelivered(o, s, Message(input.message, None, "", FailReadError), input);
  }

  lemma {:induction false} NothingDelivered(o: Origin, s: Session, e: Event, input: Input)
    requires MarksInv(o, s) && e.Message? && e.delivered.None?
    ensures MarksAgree(o, s.env.(data := s.env.data + input.message.text), s.trace + [e])
    ensures DeliveriesMarked(o, s.trace + [e])
  {
    MarkedSnoc(o, s.trace, e);
    PlainEvent(o, s.env, s.env.(data := s.env.data + input.message.text), s.trace, e);
  }

  lemma {:induction false} SaysNothing(o: Origin, s: Session, e: Event)
    requires MarksInv(o, s) && (e.Said? || e == Upgrade(false))
    ensures MarksAgree(o, s.env, s.trace + [e]) && DeliveriesMarked(o, s.trace + [e])
  {
    PlainEvent(o, s.env, s.env, s.trace, e);
    MarkedSnoc(o, s.trace, e);
  }

  lemma {:induction false} UpgradeKeepsMarks(o: Origin, s: Session, input: Input)
    requires MarksInv(o, s)
    ensures MarksInv(o, StartTLSTurn(o.cfg, s, input))
  {
    SaysNothing(o, s, Upgrade(false));
    ResetMarks(o, s.env, s.trace, Upgrade(true));
    MarkedSnoc(o, s.trace, Upgrade(true));
  }

  lemma {:induction false} LineKeepsMarks(o: Origin, s: Session, input: Input)
    requires MarksInv(o, s) && !s.killed
    ensures MarksInv(o, LineTurn(o.cfg, s, input))
  {
    match input.line
    case LineLimit => SaysNothing(o, s, Said(FailLineTooLong));
    case Line(line) =>
      if !input.shuttingDown {
        CommandKeepsMarks(o, s, line, input);
      }
    case _ =>
  }

  lemma {:induction false} TurnKeepsMarks(o: Origin, s: Session, input: Input)
    requires MarksInv(o, s)
    ensures MarksInv(o, Turn(o.cfg, s, input))
  {
    if !Finished(s) && !s.bufErr {
      match s.state
      case ConnGreeting => SaysNothing(o, s, Said(Greeting));
      case ConnCmd => LineKeepsMarks(o, s, input);
      case ConnData => DataKeepsMarks(o, s, input);
      case ConnStartTLS => UpgradeKeepsMarks(o, s, input);
      case ConnShutdown => SaysNothing(o, s, Said(ShutdownReply));
    }
  }

  /**
   In every run, each delivered envelope is marked TLS exactly when the session
   opened with TLS and nothing has reset it since; its name, ESMTP, UTF8 and
   address are those of the history; and its text is that of its own message.
   */
  lemma {:induction false} DeliveredMarks(cfg: Config, peer: string, handshakeSucceeds: bool, inputs: seq<Input>)
    ensures MarksInv(Origin(cfg, peer, OpenedWithTLS(cfg, handshakeSucceeds)),
                     Run(cfg, Open(cfg, peer, handshakeSucceeds), inputs))
    decreases |inputs|
  {
    if inputs != [] {
      DeliveredMarks(cfg, peer, handshakeSucceeds, inputs[..|inputs| - 1]);
      TurnKeepsMarks(Origin(cfg, peer, OpenedWithTLS(cfg, handshakeSucceeds)),
                     Run(cfg, Open(cfg, peer, handshakeSucceeds), inputs[..|inputs| - 1]), inputs[|inputs| - 1]);
    }
  }

  /** So no message delivered after a successful STARTTLS, or after any other reset, is marked TLS. */
  lemma {:induction false} NoTLSAfterReset(cfg: Config, peer: string, handshakeSucceeds: bool, inputs: seq<Input>,
                                           j: nat, i: nat)
    requires var trace := Run(cfg, Open(cfg, peer, handshakeSucceeds), inputs).trace;
             j < i < |trace| && IsReset(trace[j]) && trace[i].Message? && trace[i].delivered.Some?
    ensures !Run(cfg, Open(cfg, peer, handshakeSucceeds), inputs).trace[i].delivered.value.tls
  {
    DeliveredMarks(cfg, peer, handshakeSucceeds, inputs);
    var trace := Run(cfg, Open(cfg, peer, handshakeSucceeds), inputs).trace;
    var o := Origin(cfg, peer, OpenedWithTLS(cfg, handshakeSucceeds));
    assert DeliveryMarked(o, trace[i], trace[..i]);
    assert trace[..i][j] == trace[j];
  }

  /**
   In every run, the check for a session that is already in TLS stops a STARTTLS
   exactly when the session opened with TLS and nothing has reset it since: after
   a successful STARTTLS it never does, and the next one upgrades again.
   */
  lemma {:induction false} UpgradeGuard(cfg: Config, peer: string, handshakeSucceeds: bool, inputs: seq<Input>,
                                        input: Input)
    requires cfg.hasTLS
    requires var s := Run(cfg, Open(cfg, peer, handshakeSucceeds), inputs);
             !Finished(s) && !s.bufErr && s.state == ConnStartTLS
    ensures var s := Run(cfg, Open(cfg, peer, handshakeSucceeds), inputs);
            Turn(cfg, s, input).trace
            == s.trace + if OpenedWithTLS(cfg, handshakeSucceeds) && NoReset(s.trace) then []
                         else [Upgrade(input.handshakeSucceeds)]
  {
    DeliveredMarks(cfg, peer, handshakeSucceeds, inputs);
  }
}
