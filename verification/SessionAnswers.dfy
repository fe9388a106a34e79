/**
 How every command is answered, in terms of the history alone.
 */
module SessionAnswers {
  import opened Text
  import opened Session

  // ----- the error counter

  /** Answers that count as errors: not all refusals do. */
  predicate IsRefusal(e: Event) {
    match e
    case Exchange(_, r, reply) =>
      || reply in {FailNestedMail, RejectedSender, TooManyRecipients, FailUnrecognized, FailMaxUnrecognized}
      || (r.RcptRequest? && reply == FailSyntax)
    case Message(_, _, _, reply) => reply == HandlerReply(false)
    case _ => false
  }

  function Refusals(trace: seq<Event>): nat {
    if trace == [] then 0
    else Refusals(trace[..|trace| - 1]) + if IsRefusal(trace[|trace| - 1]) then 1 else 0
  }

  /** The messages that the handler took. */
  function Taken(trace: seq<Event>): nat {
    if trace == [] then 0 else Taken(trace[..|trace| - 1]) + if IsTaken(trace[|trace| - 1]) then 1 else 0
  }

  predicate IsTaken(e: Event) {
    e.Message? && e.reply == HandlerReply(true)
  }

  /** A MAIL with SMTPUTF8 that was not nested. */
  predicate SwitchesToUtf8(e: Event) {
    e.Exchange? && e.request.MailRequest? && e.request.utf8 && e.reply != FailNestedMail
  }

  function SwitchedToUtf8(trace: seq<Event>): bool {
    trace != [] && (SwitchesToUtf8(trace[|trace| - 1]) || SwitchedToUtf8(trace[..|trace| - 1]))
  }

  lemma {:induction false} CountersSnoc(trace: seq<Event>, e: Event)
    ensures Refusals(trace + [e]) == Refusals(trace) + if IsRefusal(e) then 1 else 0
    ensures Taken(trace + [e]) == Taken(trace) + if IsTaken(e) then 1 else 0
    ensures SwitchedToUtf8(trace + [e]) <==> SwitchedToUtf8(trace) || SwitchesToUtf8(e)
  {
    assert (trace + [e])[..|trace|] == trace;
  }

  /** The effect counts an error exactly when its answer is one that does, and no message. */
  predicate EffectCounts(s: Session, line: string, r: Request, eff: Effect) {
    && eff.s.errors == s.errors + (if IsRefusal(Exchange(line, r, eff.reply)) then 1 else 0)
    && eff.s.messagesSent == s.messagesSent
    && (eff.s.utf8Charset <==> s.utf8Charset || SwitchesToUtf8(Exchange(line, r, eff.reply)))
  }

  lemma {:induction false} MailCounts(s: Session, line: string, from: Option<Address>, utf8: bool)
    ensures EffectCounts(s, line, MailRequest(from, utf8), OnMail(s, from, utf8))
  {
  }

  lemma {:induction false} RcptCounts(cfg: Config, s: Session, line: string, to: Option<Address>)
    ensures EffectCounts(s, line, RcptRequest(to), OnRcpt(cfg, s, to))
  {
  }

  lemma {:induction false} ProxyCounts(cfg: Config, s: Session, line: string, toks: seq<string>)
    ensures EffectCounts(s, line, ProxyRequest(toks), OnProxy(cfg, s, toks))
  {
  }

  lemma {:induction false} PlainCounts(cfg: Config, s: Session, line: string, c: Command)
    ensures EffectCounts(s, line, Plain(c), OnPlain(cfg, s, c))
  {
  }

  lemma {:induction false} RequestCounts(cfg: Config, s: Session, line: string, r: Request)
    ensures EffectCounts(s, line, r, OnRequest(cfg, s, r))
  {
    match r
    case ProxyRequest(toks) => ProxyCounts(cfg, s, line, toks);
    case MailRequest(from, utf8) => MailCounts(s, line, from, utf8);
    case RcptRequest(to) => RcptCounts(cfg, s, line, to);
    case Plain(c) => PlainCounts(cfg, s, line, c);
    case _ =>
  }

  /** The counters are those of the history: errors, messages taken, and the switch to UTF-8. */
  predicate Counted(s: Session) {
    && s.errors == Refusals(s.trace)
    && s.messagesSent == Taken(s.trace)
    && (s.utf8Charset <==> SwitchedToUtf8(s.trace))
  }

  lemma {:induction false} CommandCountsErrors(cfg: Config, s: Session, line: string, input: Input)
    requires Counted(s)
    ensures Counted(CommandTurn(cfg, s, line, input))
  {
    var r := ParseRequest(cfg, line);
    RequestEffectOk(cfg, s, r);
    RequestCounts(cfg, s, line, r);
    CountersSnoc(s.trace, Exchange(line, r, OnRequest(cfg, s, r).reply));
  }

  lemma {:induction false} FailureCountsErrors(s: Session, input: Input, reply: Reply)
    requires Counted(s) && (reply == FailMessageSize || reply == FailReadError)
    ensures Counted(s.(env := s.env.(data := s.env.data + input.message.text), killed := true,
                       bufErr := input.writeFails, trace := s.trace + [Message(input.message, None, "", reply)]))
  {
    CountersSnoc(s.trace, Message(input.message, None, "", reply));
  }

  lemma {:induction false} HandledCountsErrors(s: Session, input: Input)
    requires Counted(s) && input.message.Complete?
    ensures Counted(DataTurn(s, input))
  {
    var given := s.env.(data := s.env.data + input.message.text);
    CountersSnoc(s.trace, Message(input.message, Some(given), input.handlerLeaves.remoteAddr,
                                  HandlerReply(input.handlerSucceeds)));
  }

  lemma {:induction false} DataCountsErrors(s: Session, input: Input)
    requires Counted(s)
    ensures Counted(DataTurn(s, input))
  {
    match input.message
    case Complete(_) => HandledCountsErrors(s, input);
    case OverLimit(_) => FailureCountsErrors(s, input, FailMessageSize);
    case ReadFailed(_) => FailureCountsErrors(s, input, FailReadError);
  }

  lemma {:induction false} SaidCounts(s: Session, reply: Reply, input: Input)
    requires Counted(s)
    ensures Counted(Say(s, reply, input))
  {
    CountersSnoc(s.trace, Said(reply));
  }

  lemma {:induction false} NoLineCountsErrors(cfg: Config, s: Session, input: Input)
    requires Counted(s) && !input.line.Line?
    ensures Counted(LineTurn(cfg, s, input))
  {
    if input.line.LineLimit? {
      SaidCounts(s, FailLineTooLong, input);
    }
  }

  lemma {:induction false} LineCountsErrors(cfg: Config, s: Session, input: Input)
    requires Counted(s)
    ensures Counted(LineTurn(cfg, s, input))
  {
    if !input.line.Line? {
      NoLineCountsErrors(cfg, s, input);
    } else if !input.shuttingDown {
      CommandCountsErrors(cfg, s, input.line.text, input);
      assert LineTurn(cfg, s, input) == CommandTurn(cfg, s, input.line.text, input);
    }
  }

  lemma {:induction false} TurnCountsErrors(cfg: Config, s: Session, input: Input)
    requires Counted(s)
    ensures Counted(Turn(cfg, s, input))
  {
    if !Finished(s) && !s.bufErr {
      match s.state
      case ConnGreeting => SaidCounts(s, Greeting, input);
      case ConnCmd => LineCountsErrors(cfg, s, input);
      case ConnData => DataCountsErrors(s, input);
      case ConnStartTLS => CountersSnoc(s.trace, Upgrade(input.handshakeSucceeds));
      case ConnShutdown => SaidCounts(s, ShutdownReply, input);
    }
  }

  /**
   In every run the error counter is the number of nested, rejected, excessive,
   malformed and unrecognized commands and of failed handlers so far, and the
   messages counted are those that the handler took.
   */
  lemma {:induction false} CountersFollowHistory(cfg: Config, peer: string, handshakeSucceeds: bool, inputs: seq<Input>)
    ensures Counted(Run(cfg, Open(cfg, peer, handshakeSucceeds), inputs))
    decreases |inputs|
  {
    if inputs != [] {
      var init := inputs[..|inputs| - 1];
      CountersFollowHistory(cfg, peer, handshakeSucceeds, init);
      TurnCountsErrors(cfg, Run(cfg, Open(cfg, peer, handshakeSucceeds), init), inputs[|inputs| - 1]);
    }
  }

  // ----- the offer of TLS

  /** The successful handshakes in the history. */
  function Upgrades(trace: seq<Event>): nat {
    if trace == [] then 0
    else Upgrades(trace[..|trace| - 1]) + if trace[|trace| - 1] == Upgrade(true) then 1 else 0
  }

  lemma {:induction false} UpgradesSnoc(trace: seq<Event>, e: Event)
    ensures Upgrades(trace + [e]) == Upgrades(trace) + if e == Upgrade(true) then 1 else 0
  {
    assert (trace + [e])[..|trace|] == trace;
  }

  /** TLS is offered until the first upgrade, by a server that has it and is not always on it. */
  predicate Offers(cfg: Config, s: Session) {
    s.offersTLS <==> cfg.hasTLS && !cfg.tlsAlwaysOn && Upgrades(s.trace) == 0
  }

  lemma {:induction false} RequestKeepsOffer(cfg: Config, s: Session, r: Request)
    ensures OnRequest(cfg, s, r).s.offersTLS == s.offersTLS
  {
    match r
    case ProxyRequest(toks) => ProxyKeepsOffer(cfg, s, toks);
    case RcptRequest(to) => RcptKeepsOffer(cfg, s, to);
    case MailRequest(from, utf8) => MailKeepsOffer(s, from, utf8);
    case Plain(c) => PlainKeepsOffer(cfg, s, c);
    case _ =>
  }

  lemma {:induction false} ProxyKeepsOffer(cfg: Config, s: Session, toks: seq<string>)
    ensures OnProxy(cfg, s, toks).s.offersTLS == s.offersTLS
  {
  }

  lemma {:induction false} RcptKeepsOffer(cfg: Config, s: Session, to: Option<Address>)
    ensures OnRcpt(cfg, s, to).s.offersTLS == s.offersTLS
  {
  }

  lemma {:induction false} MailKeepsOffer(s: Session, from: Option<Address>, utf8: bool)
    ensures OnMail(s, from, utf8).s.offersTLS == s.offersTLS
  {
  }

  lemma {:induction false} PlainKeepsOffer(cfg: Config, s: Session, c: Command)
    ensures OnPlain(cfg, s, c).s.offersTLS == s.offersTLS
  {
  }

  lemma {:induction false} CommandKeepsOffer(cfg: Config, s: Session, line: string, input: Input)
    requires Offers(cfg, s)
    ensures Offers(cfg, CommandTurn(cfg, s, line, input))
  {
    var r := ParseRequest(cfg, line);
    RequestEffectOk(cfg, s, r);
    RequestKeepsOffer(cfg, s, r);
    UpgradesSnoc(s.trace, Exchange(line, r, OnRequest(cfg, s, r).reply));
  }

  lemma {:induction false} SaidKeepsOffer(cfg: Config, s: Session, reply: Reply, input: Input)
    requires Offers(cfg, s)
    ensures Offers(cfg, Say(s, reply, input))
  {
    UpgradesSnoc(s.trace, Said(reply));
  }

  lemma {:induction false} LineKeepsOffer(cfg: Config, s: Session, input: Input)
    requires Offers(cfg, s)
    ensures Offers(cfg, LineTurn(cfg, s, input))
  {
    if !input.line.Line? {
      SaidKeepsOffer(cfg, s, FailLineTooLong, input);
    } else if !input.shuttingDown {
      CommandKeepsOffer(cfg, s, input.line.text, input);
      assert LineTurn(cfg, s, input) == CommandTurn(cfg, s, input.line.text, input);
    }
  }

  lemma {:induction false} DataKeepsOffer(cfg: Config, s: Session, input: Input)
    requires Offers(cfg, s)
    ensures Offers(cfg, DataTurn(s, input))
  {
    match input.message
    case Complete(text) =>
      UpgradesSnoc(s.trace, Message(input.message, Some(s.env.(data := s.env.data + text)),
                                    input.handlerLeaves.remoteAddr, HandlerReply(input.handlerSucceeds)));
    case OverLimit(_) => UpgradesSnoc(s.trace, Message(input.message, None, "", FailMessageSize));
    case ReadFailed(_) => UpgradesSnoc(s.trace, Message(input.message, None, "", FailReadError));
  }

  lemma {:induction false} UpgradeKeepsOffer(cfg: Config, s: Session, input: Input)
    requires Offers(cfg, s)
    ensures Offers(cfg, StartTLSTurn(cfg, s, input))
  {
    UpgradesSnoc(s.trace, Upgrade(input.handshakeSucceeds));
  }

  lemma {:induction false} TurnKeepsOffer(cfg: Config, s: Session, input: Input)
    requires Offers(cfg, s)
    ensures Offers(cfg, Turn(cfg, s, input))
  {
    if !Finished(s) && !s.bufErr {
      match s.state
      case ConnGreeting => SaidKeepsOffer(cfg, s, Greeting, input);
      case ConnCmd => LineKeepsOffer(cfg, s, input);
      case ConnData => DataKeepsOffer(cfg, s, input);
      case ConnStartTLS => UpgradeKeepsOffer(cfg, s, input);
      case ConnShutdown => SaidKeepsOffer(cfg, s, ShutdownReply, input);
    }
  }

  lemma {:induction false} OfferFollowsHistory(cfg: Config, peer: string, handshakeSucceeds: bool, inputs: seq<Input>)
    ensures Offers(cfg, Run(cfg, Open(cfg, peer, handshakeSucceeds), inputs))
    decreases |inputs|
  {
    if inputs != [] {
      var init := inputs[..|inputs| - 1];
      OfferFollowsHistory(cfg, peer, handshakeSucceeds, init);
      TurnKeepsOffer(cfg, Run(cfg, Open(cfg, peer, handshakeSucceeds), init), inputs[|inputs| - 1]);
    }
  }

  // ----- answers

  /** The answer to a request without arguments that the history before it calls for. */
  predicate PlainAnswerFits(cfg: Config, c: Command, reply: Reply, before: seq<Event>) {
    match c
    case Help => reply == HelpReply
    case Rset => reply == SuccessReset
    case Vrfy => reply == SuccessVerify
    case Noop => reply == SuccessNoop
    case Quit => reply == SuccessQuit
    case Data => reply == (if Recipients(before) == [] then FailNoRecipients else SuccessData)
    case StartTLS => reply == (if cfg.hasTLS then SuccessStartTLS else FailNotImplemented)
    case Unrecognized =>
      reply == (if Refusals(before) + 1 >= cfg.maxUnrecognized then FailMaxUnrecognized else FailUnrecognized)
    case _ => true
  }

  /** The answer to a request that the history before it calls for. */
  predicate AnswerFits(cfg: Config, request: Request, reply: Reply, before: seq<Event>) {
    match request
    case HeloRequest(_) => reply == HeloReply
    case EhloRequest(_) => reply == EhloReply(cfg.hasTLS && !cfg.tlsAlwaysOn && Upgrades(before) == 0)
    case XClientRequest(_) => reply == SuccessMail
    case ProxyRequest(toks) => reply == (if |toks| == 5 || |toks| == 6 then Greeting else FailSyntax)
    case MailRequest(from, _) =>
      reply == (if Senders(before) != [] then FailNestedMail else if from.None? then RejectedSender else SuccessMail)
    case RcptRequest(to) =>
      reply == (if |Recipients(before)| > cfg.maxRecipients then TooManyRecipients
                else if to.None? then FailSyntax else SuccessRcpt)
    case Plain(c) => PlainAnswerFits(cfg, c, reply, before)
  }

  /** The answer to a message: that of the handler when it was read completely. */
  predicate MessageAnswered(read: DataRead, reply: Reply) {
    match read
    case Complete(_) => reply.HandlerReply?
    case OverLimit(_) => reply == FailMessageSize
    case ReadFailed(_) => reply == FailReadError
  }

  predicate EventFits(cfg: Config, e: Event, before: seq<Event>) {
    && (e.Exchange? ==> AnswerFits(cfg, e.request, e.reply, before))
    && (e.Message? ==> MessageAnswered(e.read, e.reply))
  }

  predicate AnswersFit(cfg: Config, trace: seq<Event>) {
    forall i :: 0 <= i < |trace| ==> EventFits(cfg, trace[i], trace[..i])
  }

  lemma {:induction false} AnswersSnoc(cfg: Config, trace: seq<Event>, e: Event)
    requires AnswersFit(cfg, trace) && EventFits(cfg, e, trace)
    ensures AnswersFit(cfg, trace + [e])
  {
    var t := trace + [e];
    forall i | 0 <= i < |t| ensures EventFits(cfg, t[i], t[..i]) {
      if i < |trace| {
        assert t[..i] == trace[..i];
      } else {
        assert t[..i] == trace;
      }
    }
  }

  lemma {:induction false} MailFits(cfg: Config, s: Session, from: Option<Address>, utf8: bool)
    requires Agrees(s.env, s.trace)
    ensures AnswerFits(cfg, MailRequest(from, utf8), OnMail(s, from, utf8).reply, s.trace)
  {
  }

  lemma {:induction false} RcptFits(cfg: Config, s: Session, to: Option<Address>)
    requires Agrees(s.env, s.trace)
    ensures AnswerFits(cfg, RcptRequest(to), OnRcpt(cfg, s, to).reply, s.trace)
  {
    assert |Recipients(s.trace)| == |s.env.rcptTo|;
  }

  lemma {:induction false} PlainFits(cfg: Config, s: Session, c: Command)
    requires Agrees(s.env, s.trace) && Counted(s) && Offers(cfg, s)
    ensures AnswerFits(cfg, Plain(c), OnPlain(cfg, s, c).reply, s.trace)
  {
    assert |Recipients(s.trace)| == |s.env.rcptTo|;
  }

  lemma {:induction false} ProxyFits(cfg: Config, s: Session, toks: seq<string>)
    ensures AnswerFits(cfg, ProxyRequest(toks), OnProxy(cfg, s, toks).reply, s.trace)
  {
  }

  lemma {:induction false} RequestFits(cfg: Config, s: Session, r: Request)
    requires Agrees(s.env, s.trace) && Counted(s) && Offers(cfg, s)
    ensures AnswerFits(cfg, r, OnRequest(cfg, s, r).reply, s.trace)
  {
    match r
    case MailRequest(from, utf8) => MailFits(cfg, s, from, utf8);
    case RcptRequest(to) => RcptFits(cfg, s, to);
    case Plain(c) => PlainFits(cfg, s, c);
    case ProxyRequest(toks) => ProxyFits(cfg, s, toks);
    case _ =>
  }

  lemma {:induction false} CommandKeepsAnswers(cfg: Config, s: Session, line: string, input: Input)
    requires Agrees(s.env, s.trace) && Counted(s) && Offers(cfg, s) && AnswersFit(cfg, s.trace)
    ensures AnswersFit(cfg, CommandTurn(cfg, s, line, input).trace)
  {
    var r := ParseRequest(cfg, line);
    RequestEffectOk(cfg, s, r);
    RequestFits(cfg, s, r);
    AnswersSnoc(cfg, s.trace, Exchange(line, r, OnRequest(cfg, s, r).reply));
  }

  lemma {:induction false} TurnKeepsAnswers(cfg: Config, s: Session, input: Input)
    requires Agrees(s.env, s.trace) && Counted(s) && Offers(cfg, s) && AnswersFit(cfg, s.trace)
    ensures AnswersFit(cfg, Turn(cfg, s, input).trace)
  {
    if !Finished(s) && !s.bufErr {
      match s.state
      case ConnGreeting => AnswersSnoc(cfg, s.trace, Said(Greeting));
      case ConnCmd => LineKeepsAnswers(cfg, s, input);
      case ConnData => DataKeepsAnswers(cfg, s, input);
      case ConnStartTLS => AnswersSnoc(cfg, s.trace, Upgrade(input.handshakeSucceeds));
      case ConnShutdown => AnswersSnoc(cfg, s.trace, Said(ShutdownReply));
    }
  }

  lemma {:induction false} DataKeepsAnswers(cfg: Config, s: Session, input: Input)
    requires AnswersFit(cfg, s.trace)
    ensures AnswersFit(cfg, DataTurn(s, input).trace)
  {
    match input.message
    case Complete(text) =>
      AnswersSnoc(cfg, s.trace, Message(input.message, Some(s.env.(data := s.env.data + text)),
                                        input.handlerLeaves.remoteAddr, HandlerReply(input.handlerSucceeds)));
    case OverLimit(_) => AnswersSnoc(cfg, s.trace, Message(input.message, None, "", FailMessageSize));
    case ReadFailed(_) => AnswersSnoc(cfg, s.trace, Message(input.message, None, "", FailReadError));
  }

  lemma {:induction false} LineKeepsAnswers(cfg: Config, s: Session, input: Input)
    requires Agrees(s.env, s.trace) && Counted(s) && Offers(cfg, s) && AnswersFit(cfg, s.trace)
    ensures AnswersFit(cfg, LineTurn(cfg, s, input).trace)
  {
    if input.line.Line? {
      CommandKeepsAnswers(cfg, s, input.line.text, input);
    } else {
      AnswersSnoc(cfg, s.trace, Said(FailLineTooLong));
    }
  }

  /**
   In every run, MAIL is accepted exactly when it parses and none has been since
   the last reset; RCPT exactly when it parses and no more than `MaxRecipients`
   have been; DATA exactly when some RCPT has been. EHLO offers TLS until the first
   upgrade. An unrecognized command gets the fatal answer exactly when it is at
   least the `MaxUnrecognizedCommands`-th error of any kind.
   */
  lemma {:induction false} AnswersFollowHistory(cfg: Config, peer: string, handshakeSucceeds: bool, inputs: seq<Input>)
    ensures AnswersFit(cfg, Run(cfg, Open(cfg, peer, handshakeSucceeds), inputs).trace)
    decreases |inputs|
  {
    if inputs != [] {
      var init := inputs[..|inputs| - 1];
      AnswersFollowHistory(cfg, peer, handshakeSucceeds, init);
      DeliveredEnvelopesMatchHistory(cfg, peer, handshakeSucceeds, init);
      CountersFollowHistory(cfg, peer, handshakeSucceeds, init);
      OfferFollowsHistory(cfg, peer, handshakeSucceeds, init);
      TurnKeepsAnswers(cfg, Run(cfg, Open(cfg, peer, handshakeSucceeds), init), inputs[|inputs| - 1]);
    }
  }
}
