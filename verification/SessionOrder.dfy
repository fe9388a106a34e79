/**
 The order in which a session goes: the greeting first, a message right after DATA
 was accepted, a handshake right after STARTTLS was, and nothing after the end.
 */
module SessionOrder {
  import opened Text
  import opened Session

  predicate AcceptsData(e: Event) {
    e.Exchange? && e.request == Plain(Data) && e.reply == SuccessData
  }

  predicate AcceptsStartTLS(e: Event) {
    e.Exchange? && e.request == Plain(StartTLS) && e.reply == SuccessStartTLS
  }

  /** After this event the server reads no more: QUIT, too many errors, a line or a message that cannot be read. */
  predicate IsLast(e: Event) {
    match e
    case Exchange(_, _, reply) => reply == SuccessQuit || reply == FailMaxUnrecognized
    case Said(reply) => reply == FailLineTooLong || reply == ShutdownReply
    case Message(_, _, _, reply) => reply == FailMessageSize || reply == FailReadError
    case Upgrade(_) => false
  }

  /** `e` may come next. */
  predicate MayFollow(before: seq<Event>, e: Event) {
    && (before == [] <==> e == Said(Greeting))
    && (before != [] ==>
          var last := before[|before| - 1];
          && !IsLast(last)
          && (e.Message? <==> AcceptsData(last))
          && (e.Upgrade? ==> AcceptsStartTLS(last)))
  }

  predicate InOrder(trace: seq<Event>) {
    forall i :: 0 <= i < |trace| ==> MayFollow(trace[..i], trace[i])
  }

  predicate LastIs(trace: seq<Event>, p: Event -> bool) {
    trace != [] && p(trace[|trace| - 1])
  }

  /** The state that the last event leaves the session in. */
  predicate OrderInv(s: Session) {
    && InOrder(s.trace)
    && (s.state == ConnGreeting <==> s.trace == [])
    && (LastIs(s.trace, IsLast) ==> Finished(s))
    && (!Finished(s) ==> (s.state == ConnData <==> LastIs(s.trace, AcceptsData)))
    && (s.state == ConnStartTLS ==> LastIs(s.trace, AcceptsStartTLS))
  }

  lemma {:induction false} InOrderSnoc(trace: seq<Event>, e: Event)
    requires InOrder(trace) && MayFollow(trace, e)
    ensures InOrder(trace + [e]) && (trace + [e])[|trace|] == e
  {
    var t := trace + [e];
    forall i | 0 <= i < |t| ensures MayFollow(t[..i], t[i]) {
      if i < |trace| {
        assert t[..i] == trace[..i];
      } else {
        assert t[..i] == trace;
      }
    }
  }

  /** What a request may do to the state, by request and answer. */
  predicate EffectInOrder(s: Session, r: Request, eff: Effect) {
    && eff.s.trace == s.trace
    && (eff.s.state == ConnData <==> r == Plain(Data) && eff.reply == SuccessData)
    && (eff.s.state == ConnStartTLS ==> r == Plain(StartTLS) && eff.reply == SuccessStartTLS)
    && eff.s.state != ConnGreeting
    && (Finished(eff.s) <==> eff.reply == SuccessQuit || eff.reply == FailMaxUnrecognized)
  }

  lemma {:induction false} MailInOrder(s: Session, from: Option<Address>, utf8: bool)
    requires s.state == ConnCmd && !Finished(s)
    ensures EffectInOrder(s, MailRequest(from, utf8), OnMail(s, from, utf8))
  {
  }

  lemma {:induction false} RcptInOrder(cfg: Config, s: Session, to: Option<Address>)
    requires s.state == ConnCmd && !Finished(s)
    ensures EffectInOrder(s, RcptRequest(to), OnRcpt(cfg, s, to))
  {
  }

  lemma {:induction false} ProxyInOrder(cfg: Config, s: Session, toks: seq<string>)
    requires s.state == ConnCmd && !Finished(s)
    ensures EffectInOrder(s, ProxyRequest(toks), OnProxy(cfg, s, toks))
  {
  }

  lemma {:induction false} PlainInOrder(cfg: Config, s: Session, c: Command)
    requires s.state == ConnCmd && !Finished(s)
    ensures EffectInOrder(s, Plain(c), OnPlain(cfg, s, c))
  {
  }

  lemma {:induction false} RequestInOrder(cfg: Config, s: Session, r: Request)
    requires s.state == ConnCmd && !Finished(s)
    ensures EffectInOrder(s, r, OnRequest(cfg, s, r))
  {
    match r
    case ProxyRequest(toks) => ProxyInOrder(cfg, s, toks);
    case MailRequest(from, utf8) => MailInOrder(s, from, utf8);
    case RcptRequest(to) => RcptInOrder(cfg, s, to);
    case Plain(c) => PlainInOrder(cfg, s, c);
    case _ =>
  }

  lemma {:induction false} EffectKeepsOrder(s: Session, r: Request, eff: Effect, line: string, input: Input)
    requires OrderInv(s) && s.state == ConnCmd && !Finished(s) && EffectInOrder(s, r, eff)
    ensures OrderInv(Answer(eff, line, r, input))
  {
    InOrderSnoc(s.trace, Exchange(line, r, eff.reply));
  }

  lemma {:induction false} CommandKeepsOrder(cfg: Config, s: Session, line: string, input: Input)
    requires OrderInv(s) && s.state == ConnCmd && !Finished(s)
    ensures OrderInv(CommandTurn(cfg, s, line, input))
  {
    var r := ParseRequest(cfg, line);
    RequestInOrder(cfg, s, r);
    EffectKeepsOrder(s, r, OnRequest(cfg, s, r), line, input);
  }

  lemma {:induction false} TooLongKeepsOrder(s: Session, input: Input)
    requires OrderInv(s) && s.state == ConnCmd && !Finished(s)
    ensures OrderInv(Say(s, FailLineTooLong, input).(killed := true, returned := true))
  {
    InOrderSnoc(s.trace, Said(FailLineTooLong));
  }

  /** A session may end without a word. */
  lemma {:induction false} EndKeepsOrder(s: Session, killed: bool)
    requires OrderInv(s)
    ensures OrderInv(s.(killed := killed, returned := true))
  {
  }

  lemma {:induction false} NoLineKeepsOrder(cfg: Config, s: Session, input: Input)
    requires OrderInv(s) && s.state == ConnCmd && !Finished(s) && !input.line.Line?
    ensures OrderInv(LineTurn(cfg, s, input))
  {
    if input.line.LineLimit? {
      TooLongKeepsOrder(s, input);
    } else {
      EndKeepsOrder(s, input.line.LineError?);
      assert LineTurn(cfg, s, input) == s.(killed := input.line.LineError?, returned := true);
    }
  }

  lemma {:induction false} LineKeepsOrder(cfg: Config, s: Session, input: Input)
    requires OrderInv(s) && s.state == ConnCmd && !Finished(s)
    ensures OrderInv(LineTurn(cfg, s, input))
  {
    if !input.line.Line? {
      NoLineKeepsOrder(cfg, s, input);
    } else if !input.shuttingDown {
      CommandKeepsOrder(cfg, s, input.line.text, input);
      assert LineTurn(cfg, s, input) == CommandTurn(cfg, s, input.line.text, input);
    }
  }

  lemma {:induction false} FailureKeepsOrder(s: Session, input: Input, reply: Reply)
    requires OrderInv(s) && s.state == ConnData && !Finished(s)
    requires reply == FailMessageSize || reply == FailReadError
    ensures OrderInv(s.(env := s.env.(data := s.env.data + input.message.text), killed := true,
                        bufErr := input.writeFails, trace := s.trace + [Message(input.message, None, "", reply)]))
  {
    InOrderSnoc(s.trace, Message(input.message, None, "", reply));
  }

  lemma {:induction false} DataKeepsOrder(s: Session, input: Input)
    requires OrderInv(s) && s.state == ConnData && !Finished(s)
    ensures OrderInv(DataTurn(s, input))
  {
    match input.message
    case Complete(text) =>
      var given := s.env.(data := s.env.data + text);
      InOrderSnoc(s.trace, Message(input.message, Some(given), input.handlerLeaves.remoteAddr,
                                   HandlerReply(input.handlerSucceeds)));
    case OverLimit(_) => FailureKeepsOrder(s, input, FailMessageSize);
    case ReadFailed(_) => FailureKeepsOrder(s, input, FailReadError);
  }

  lemma {:induction false} UpgradeKeepsOrder(cfg: Config, s: Session, input: Input)
    requires OrderInv(s) && s.state == ConnStartTLS && !Finished(s)
    ensures OrderInv(StartTLSTurn(cfg, s, input))
  {
    InOrderSnoc(s.trace, Upgrade(input.handshakeSucceeds));
  }

  lemma {:induction false} TurnKeepsOrder(cfg: Config, s: Session, input: Input)
    requires OrderInv(s)
    ensures OrderInv(Turn(cfg, s, input))
  {
    if !Finished(s) && !s.bufErr {
      match s.state
      case ConnGreeting => InOrderSnoc(s.trace, Said(Greeting));
      case ConnCmd => LineKeepsOrder(cfg, s, input);
      case ConnData => DataKeepsOrder(s, input);
      case ConnStartTLS => UpgradeKeepsOrder(cfg, s, input);
      case ConnShutdown => InOrderSnoc(s.trace, Said(ShutdownReply));
    }
  }

  /**
   In every run the greeting comes first and only then, a message comes exactly
   after an accepted DATA, a handshake only after an accepted STARTTLS, and after
   QUIT, too many errors or an unreadable line or message nothing comes any more.
   */
  lemma {:induction false} SessionsGoInOrder(cfg: Config, peer: string, handshakeSucceeds: bool, inputs: seq<Input>)
    ensures OrderInv(Run(cfg, Open(cfg, peer, handshakeSucceeds), inputs))
    decreases |inputs|
  {
    if inputs != [] {
      var init := inputs[..|inputs| - 1];
      SessionsGoInOrder(cfg, peer, handshakeSucceeds, init);
      TurnKeepsOrder(cfg, Run(cfg, Open(cfg, peer, handshakeSucceeds), init), inputs[|inputs| - 1]);
    }
  }

  // ----- ends without a word

  /** After the end, or a write that failed, nothing is said any more. */
  lemma {:induction false} NothingAfter(cfg: Config, s: Session, inputs: seq<Input>)
    requires Finished(s) || s.bufErr
    ensures var s' := Run(cfg, s, inputs);
            s'.trace == s.trace && (Finished(s') || s' == s) && (inputs != [] ==> Finished(s'))
    decreases |inputs|
  {
    if inputs != [] {
      NothingAfter(cfg, s, inputs[..|inputs| - 1]);
    }
  }

  lemma {:induction false} RequestKeepsBuffer(cfg: Config, s: Session, r: Request)
    ensures OnRequest(cfg, s, r).s.trace == s.trace
  {
    RequestEffectOk(cfg, s, r);
  }

  /** A write that fails is noticed, whatever was to be said. */
  lemma {:induction false} FailedWrite(cfg: Config, s: Session, input: Input)
    requires input.writeFails && !Finished(s) && !s.bufErr && Turn(cfg, s, input).trace != s.trace
    ensures Turn(cfg, s, input).bufErr || s.state == ConnStartTLS
  {
    if s.state == ConnCmd && input.line.Line? {
      RequestKeepsBuffer(cfg, s, ParseRequest(cfg, input.line.text));
    }
  }

  /** A server that is always on TLS says nothing when the handshake fails; otherwise the greeting comes first. */
  lemma {:induction false} Opens(cfg: Config, peer: string, handshakeSucceeds: bool, inputs: seq<Input>)
    requires inputs != []
    ensures var s := Run(cfg, Open(cfg, peer, handshakeSucceeds), inputs);
            if cfg.tlsAlwaysOn && cfg.hasTLS && !handshakeSucceeds then s.trace == [] && Finished(s)
            else s.trace != [] && s.trace[0] == Said(Greeting)
    decreases |inputs|
  {
    var start := Open(cfg, peer, handshakeSucceeds);
    if cfg.tlsAlwaysOn && cfg.hasTLS && !handshakeSucceeds {
      NothingAfter(cfg, start, inputs);
    } else {
      SessionsGoInOrder(cfg, peer, handshakeSucceeds, inputs);
      var s := Run(cfg, start, inputs);
      StartsTalking(cfg, start, inputs);
      assert MayFollow(s.trace[..0], s.trace[0]);
      assert s.trace[..0] == [];
    }
  }

  lemma {:induction false} TurnGrows(cfg: Config, s: Session, input: Input)
    ensures s.trace <= Turn(cfg, s, input).trace
  {
    if s.state == ConnCmd && input.line.Line? {
      RequestKeepsBuffer(cfg, s, ParseRequest(cfg, input.line.text));
    }
  }

  lemma {:induction false} StartsTalking(cfg: Config, s: Session, inputs: seq<Input>)
    requires inputs != [] && !Finished(s) && !s.bufErr && s.state == ConnGreeting
    ensures Run(cfg, s, inputs).trace != []
    decreases |inputs|
  {
    var init, last := inputs[..|inputs| - 1], inputs[|inputs| - 1];
    if init != [] {
      StartsTalking(cfg, s, init);
      TurnGrows(cfg, Run(cfg, s, init), last);
    }
  }

  /** What the session does when no line comes: it ends, and says why only when the line is too long. */
  lemma {:induction false} NoLine(cfg: Config, s: Session, input: Input)
    requires !Finished(s) && !s.bufErr && s.state == ConnCmd && !input.line.Line?
    ensures var s' := Turn(cfg, s, input);
            && s'.trace == s.trace + (if input.line.LineLimit? then [Said(FailLineTooLong)] else [])
            && s'.returned && (s'.killed <==> input.line.LineLimit? || input.line.LineError?)
            && s'.env == s.env
  {
  }

  /** What a complete message leads to: the handler's answer, and the shutdown if there is one. */
  lemma {:induction false} HandlerAnswers(cfg: Config, s: Session, input: Input)
    requires !Finished(s) && !s.bufErr && s.state == ConnData && input.message.Complete?
    ensures var s' := Turn(cfg, s, input);
            && s'.trace == s.trace + [Message(input.message, Some(s.env.(data := s.env.data + input.message.text)),
                                              input.handlerLeaves.remoteAddr, HandlerReply(input.handlerSucceeds))]
            && !Finished(s') && s'.state == (if input.shuttingDown then ConnShutdown else ConnCmd)
  {
  }

  /** A server that shuts down answers the next line with the news, and closes. */
  lemma {:induction false} ShutsDown(cfg: Config, s: Session, input: Input, next: Input)
    requires !Finished(s) && !s.bufErr && s.state == ConnCmd && input.line.Line? && input.shuttingDown
    ensures var s' := Turn(cfg, Turn(cfg, s, input), next);
            s'.trace == s.trace + [Said(ShutdownReply)] && s'.killed
  {
  }
}
