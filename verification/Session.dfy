/**
 One SMTP session: the loop of `handleConn` in server.go with the connection
 state of connection.go, as a function from one turn of the loop to the next.
 What the session reads, whether writes and handshakes succeed, and what the
 handler answers are inputs of a turn.
 */
module Session {
  import opened Text
  import opened Strings

  // ----- the data

  /** A parsed address; `net/mail` never returns an empty one. */
  type Address = a: string | a != "" witness "a"

  datatype Config = Config(
    maxRecipients: int,
    maxUnrecognized: int,
    hasTLS: bool,
    tlsAlwaysOn: bool,
    xclientOn: bool,
    proxyOn: bool,
    parseAddress: string -> Option<Address>,
    parseIP: string -> string)

  datatype EnvelopeValue = EnvelopeValue(
    remoteAddr: string,
    helo: string,
    tls: bool,
    utf8: bool,
    esmtp: bool,
    mailFrom: Option<Address>,
    rcptTo: seq<Address>,
    data: string)

  datatype ConnState = ConnGreeting | ConnCmd | ConnData | ConnStartTLS | ConnShutdown

  datatype Reply =
    | Greeting | HeloReply | EhloReply(offersTLS: bool) | HelpReply
    | SuccessMail | FailNestedMail | RejectedSender
    | SuccessRcpt | TooManyRecipients | FailSyntax
    | SuccessReset | SuccessVerify | SuccessNoop | SuccessQuit
    | SuccessData | FailNoRecipients
    | SuccessStartTLS | FailNotImplemented
    | FailUnrecognized | FailMaxUnrecognized
    | FailLineTooLong | FailMessageSize | FailReadError
    | HandlerReply(success: bool) | ShutdownReply

  datatype LineRead = Line(text: string) | LineEOF | LineTimeout | LineLimit | LineError

  datatype DataRead = Complete(text: string) | OverLimit(text: string) | ReadFailed(text: string)

  /** What the outside world does during one turn. */
  datatype Input = Input(
    line: LineRead,
    message: DataRead,
    handlerSucceeds: bool,
    handlerLeaves: EnvelopeValue,
    handshakeSucceeds: bool,
    shuttingDown: bool,
    writeFails: bool)

  /**
   What a turn lets an observer of the session see. `left` is the remote address
   in the envelope after the handler had it.
   */
  datatype Event =
    | Said(reply: Reply)
    | Exchange(line: string, request: Request, reply: Reply)
    | Message(read: DataRead, delivered: Option<EnvelopeValue>, left: string, reply: Reply)
    | Upgrade(success: bool)

  datatype Session = Session(
    env: EnvelopeValue,
    state: ConnState,
    killed: bool,
    returned: bool,
    errors: nat,
    messagesSent: nat,
    bufErr: bool,
    utf8Charset: bool,
    offersTLS: bool,
    trace: seq<Event>)

  // ----- commands

  datatype Command =
    | Helo | Ehlo | Help | XClient | Proxy | Mail | Rcpt | Rset | Vrfy | Noop | Quit | Data | StartTLS | Unrecognized

  function UpperChar(c: char): char {
    if 'a' <= c <= 'z' then c - 'a' + 'A' else c
  }

  /** `command.match`: the line starts with the verb, in any case. */
  predicate Matches(verb: string, line: string) {
    |verb| <= |line| && forall i :: 0 <= i < |verb| ==> UpperChar(line[i]) == verb[i]
  }

  function Content(verb: string, line: string): string {
    if |verb| <= |line| then TrimSpace(line[|verb|..]) else ""
  }

  /** The cases of the switch over the commands, in its order. */
  const CASES: seq<(string, Command)> := [
    ("HELO", Helo), ("EHLO", Ehlo), ("HELP", Help), ("XCLIENT", XClient), ("PROXY ", Proxy),
    ("MAIL FROM:", Mail), ("RCPT TO:", Rcpt), ("RSET", Rset), ("VRFY", Vrfy), ("NOOP", Noop),
    ("QUIT", Quit), ("DATA", Data), ("STARTTLS", StartTLS)
  ]

  predicate IsOn(cfg: Config, c: Command) {
    (c == XClient ==> cfg.xclientOn) && (c == Proxy ==> cfg.proxyOn)
  }

  function FirstCase(cfg: Config, cases: seq<(string, Command)>, line: string): Command {
    if cases == [] then Unrecognized
    else if Matches(cases[0].0, line) && IsOn(cfg, cases[0].1) then cases[0].1
    else FirstCase(cfg, cases[1..], line)
  }

  function Classify(cfg: Config, line: string): Command {
    FirstCase(cfg, CASES, line)
  }

  /** What a command line asks for, with its arguments parsed. */
  datatype Request =
    | HeloRequest(name: string)
    | EhloRequest(name: string)
    | XClientRequest(toks: seq<string>)
    | ProxyRequest(toks: seq<string>)
    | MailRequest(from: Option<Address>, utf8: bool)
    | RcptRequest(to: Option<Address>)
    | Plain(command: Command)

  function ParseRequest(cfg: Config, line: string): Request {
    match Classify(cfg, line)
    case Helo => HeloRequest(Content("HELO", line))
    case Ehlo => EhloRequest(Content("HELO", line))
    case XClient => XClientRequest(Fields(Content("XCLIENT", line), IsSpace))
    case Proxy => ProxyRequest(Fields(Content("PROXY ", line), IsSpace))
    case Mail =>
      var arg := Cut(Content("MAIL FROM:", line), ' ');
      MailRequest(cfg.parseAddress(arg.before), arg.after == "SMTPUTF8")
    case Rcpt => RcptRequest(cfg.parseAddress(Content("RCPT TO:", line)))
    case c => Plain(c)
  }

  // ----- one turn

  function Reset(e: EnvelopeValue): EnvelopeValue {
    EnvelopeValue(e.remoteAddr, "", false, false, false, None, [], "")
  }

  predicate InTransaction(e: EnvelopeValue) {
    e.mailFrom.Some? && e.mailFrom.value != ""
  }

  /** One KEY=VALUE token of an XCLIENT command. */
  function XClientToken(cfg: Config, e: EnvelopeValue, tok: string): EnvelopeValue {
    var c := Cut(tok, '=');
    if !c.found || c.after == "[UNAVAILABLE]" then e
    else if c.before == "ADDR" then e.(remoteAddr := cfg.parseIP(c.after))
    else if c.before == "HELO" then e.(helo := c.after)
    else e
  }

  function XClientTokens(cfg: Config, e: EnvelopeValue, toks: seq<string>): EnvelopeValue {
    if toks == [] then e
    else XClientToken(cfg, XClientTokens(cfg, e, toks[..|toks| - 1]), toks[|toks| - 1])
  }

  /** What a command does to the session, and the answer to it. */
  datatype Effect = Effect(s: Session, reply: Reply)

  /** An answer that counts as an error. */
  function Refuse(s: Session, reply: Reply): Effect {
    Effect(s.(errors := s.errors + 1), reply)
  }

  function OnMail(s: Session, from: Option<Address>, utf8: bool): Effect {
    if InTransaction(s.env) then Refuse(s, FailNestedMail)
    else
      var s' := s.(utf8Charset := s.utf8Charset || utf8, env := s.env.(utf8 := s.env.utf8 || utf8, mailFrom := from));
      if from.None? then Refuse(s', RejectedSender) else Effect(s', SuccessMail)
  }

  function OnRcpt(cfg: Config, s: Session, to: Option<Address>): Effect {
    if |s.env.rcptTo| > cfg.maxRecipients then Refuse(s, TooManyRecipients)
    else if to.None? then Refuse(s, FailSyntax)
    else Effect(s.(env := s.env.(rcptTo := s.env.rcptTo + [to.value])), SuccessRcpt)
  }

  function OnProxy(cfg: Config, s: Session, toks: seq<string>): Effect {
    if |toks| == 5 then Effect(s.(env := s.env.(remoteAddr := cfg.parseIP(toks[1]))), Greeting)
    else if |toks| == 6 then Effect(s.(env := s.env.(remoteAddr := cfg.parseIP(toks[2]))), Greeting)
    else Effect(s, FailSyntax)
  }

  function OnUnrecognized(cfg: Config, s: Session): Effect {
    if s.errors + 1 >= cfg.maxUnrecognized then Refuse(s.(killed := true), FailMaxUnrecognized)
    else Refuse(s, FailUnrecognized)
  }

  function OnPlain(cfg: Config, s: Session, c: Command): Effect {
    match c
    case Help => Effect(s, HelpReply)
    case Rset => Effect(s.(env := Reset(s.env)), SuccessReset)
    case Vrfy => Effect(s, SuccessVerify)
    case Noop => Effect(s, SuccessNoop)
    case Quit => Effect(s.(killed := true, returned := true), SuccessQuit)
    case Data => if s.env.rcptTo == [] then Effect(s, FailNoRecipients) else Effect(s.(state := ConnData), SuccessData)
    case StartTLS =>
      if !cfg.hasTLS then Effect(s, FailNotImplemented)
      else Effect(s.(state := ConnStartTLS), SuccessStartTLS)
    case _ => OnUnrecognized(cfg, s)
  }

  function OnRequest(cfg: Config, s: Session, r: Request): Effect {
    match r
    case HeloRequest(name) => Effect(s.(env := Reset(s.env).(helo := name)), HeloReply)
    case EhloRequest(name) => Effect(s.(env := Reset(s.env).(helo := name, esmtp := true)), EhloReply(s.offersTLS))
    case XClientRequest(toks) => Effect(s.(env := XClientTokens(cfg, s.env, toks)), SuccessMail)
    case ProxyRequest(toks) => OnProxy(cfg, s, toks)
    case MailRequest(from, utf8) => OnMail(s, from, utf8)
    case RcptRequest(to) => OnRcpt(cfg, s, to)
    case Plain(c) => OnPlain(cfg, s, c)
  }

  /** A command line is answered once, with what it asks for. */
  function Answer(e: Effect, line: string, r: Request, input: Input): Session {
    e.s.(bufErr := input.writeFails, trace := e.s.trace + [Exchange(line, r, e.reply)])
  }

  function CommandTurn(cfg: Config, s: Session, line: string, input: Input): Session {
    var r := ParseRequest(cfg, line);
    Answer(OnRequest(cfg, s, r), line, r, input)
  }

  function Say(s: Session, reply: Reply, input: Input): Session {
    s.(bufErr := input.writeFails, trace := s.trace + [Said(reply)])
  }

  function LineTurn(cfg: Config, s: Session, input: Input): Session {
    match input.line
    case LineEOF => s.(returned := true)
    case LineTimeout => s.(returned := true)
    case LineLimit => Say(s, FailLineTooLong, input).(killed := true, returned := true)
    case LineError => s.(killed := true, returned := true)
    case Line(line) =>
      if input.shuttingDown then s.(state := ConnShutdown)
      else CommandTurn(cfg, s, line, input)
  }

  function DataTurn(s: Session, input: Input): Session {
    var env := s.env.(data := s.env.data + input.message.text);
    match input.message
    case Complete(_) =>
      s.(env := Reset(input.handlerLeaves),
         errors := if input.handlerSucceeds then s.errors else s.errors + 1,
         messagesSent := if input.handlerSucceeds then s.messagesSent + 1 else s.messagesSent,
         bufErr := input.writeFails,
         state := if input.shuttingDown then ConnShutdown else ConnCmd,
         trace := s.trace + [Message(input.message, Some(env), input.handlerLeaves.remoteAddr,
                                     HandlerReply(input.handlerSucceeds))])
    case OverLimit(_) =>
      s.(env := env, killed := true, bufErr := input.writeFails,
         trace := s.trace + [Message(input.message, None, "", FailMessageSize)])
    case ReadFailed(_) =>
      s.(env := env, killed := true, bufErr := input.writeFails,
         trace := s.trace + [Message(input.message, None, "", FailReadError)])
  }

  function StartTLSTurn(cfg: Config, s: Session, input: Input): Session {
    var s' := s.(state := ConnCmd);
    if s.env.tls || !cfg.hasTLS then s'
    else if !input.handshakeSucceeds then s'.(trace := s.trace + [Upgrade(false)])
    else s'.(env := Reset(s.env), offersTLS := false, trace := s.trace + [Upgrade(true)])
  }

  predicate Finished(s: Session) {
    s.killed || s.returned
  }

  /** One turn of the loop; nothing happens once the loop has ended. */
  function Turn(cfg: Config, s: Session, input: Input): Session {
    if Finished(s) then s
    else if s.bufErr then s.(returned := true)
    else
      match s.state
      case ConnGreeting => Say(s, Greeting, input).(state := ConnCmd)
      case ConnCmd => LineTurn(cfg, s, input)
      case ConnData => DataTurn(s, input)
      case ConnStartTLS => StartTLSTurn(cfg, s, input)
      case ConnShutdown => Say(s, ShutdownReply, input).(killed := true)
  }

  /** A new connection, after the handshake of a server that is always on TLS. */
  function Open(cfg: Config, remoteAddr: string, handshakeSucceeds: bool): Session {
    var always := cfg.tlsAlwaysOn && cfg.hasTLS;
    Session(EnvelopeValue(remoteAddr, "", always && handshakeSucceeds, false, false, None, [], ""), ConnGreeting,
            always && !handshakeSucceeds, always && !handshakeSucceeds, 0, 0, false, false, cfg.hasTLS && !always, [])
  }

  /** The session after all the inputs, one per turn. */
  function Run(cfg: Config, s: Session, inputs: seq<Input>): Session {
    if inputs == [] then s else Turn(cfg, Run(cfg, s, inputs[..|inputs| - 1]), inputs[|inputs| - 1])
  }

  // ----- what the observer can tell from the history

  /** Events that end the transaction before them: HELO, EHLO, RSET, a finished message, a TLS upgrade. */
  predicate IsReset(e: Event) {
    match e
    case Exchange(_, r, _) => r.HeloRequest? || r.EhloRequest? || r == Plain(Rset)
    case Message(_, delivered, _, _) => delivered.Some?
    case Upgrade(success) => success
    case Said(_) => false
  }

  predicate AcceptsRcpt(e: Event) {
    e.Exchange? && e.request.RcptRequest? && e.reply == SuccessRcpt
  }

  predicate AcceptsMail(e: Event) {
    e.Exchange? && e.request.MailRequest? && e.reply == SuccessMail
  }

  /** The addresses of the RCPT commands answered with success since the last reset, in order. */
  function Recipients(trace: seq<Event>): seq<Option<Address>> {
    if trace == [] then []
    else
      var e, before := trace[|trace| - 1], Recipients(trace[..|trace| - 1]);
      if IsReset(e) then [] else if AcceptsRcpt(e) then before + [e.request.to] else before
  }

  /** The addresses of the MAIL commands answered with success since the last reset, in order. */
  function Senders(trace: seq<Event>): seq<Option<Address>> {
    if trace == [] then []
    else
      var e, before := trace[|trace| - 1], Senders(trace[..|trace| - 1]);
      if IsReset(e) then [] else if AcceptsMail(e) then before + [e.request.from] else before
  }

  function Somes<T>(xs: seq<T>): (r: seq<Option<T>>)
    ensures |r| == |xs|
  {
    seq(|xs|, i requires 0 <= i < |xs| => Some(xs[i]))
  }

  /** An envelope agrees with the history before it. */
  predicate Agrees(e: EnvelopeValue, trace: seq<Event>) {
    && Recipients(trace) == Somes(e.rcptTo)
    && Senders(trace) == (if e.mailFrom.Some? then [e.mailFrom] else [])
  }

  /** The requests in the history are those of the lines. */
  predicate LinesParsed(cfg: Config, trace: seq<Event>) {
    forall i :: 0 <= i < |trace| && trace[i].Exchange? ==> trace[i].request == ParseRequest(cfg, trace[i].line)
  }

  /** Every envelope in the history was handed over complete, with recipients, and agreed with the history then. */
  predicate DeliveriesAgree(trace: seq<Event>) {
    forall i :: 0 <= i < |trace| && trace[i].Message? ==> DeliveryAgrees(trace[i], trace[..i])
  }

  predicate DeliveryAgrees(m: Event, before: seq<Event>)
    requires m.Message?
  {
    && (m.delivered.Some? <==> m.read.Complete?)
    && (m.delivered.Some? ==> |m.delivered.value.rcptTo| > 0 && Agrees(m.delivered.value, before))
  }

  /** The session's envelope agrees with its history, and so did all envelopes before it. */
  predicate HistoryInv(s: Session) {
    && Agrees(s.env, s.trace)
    && DeliveriesAgree(s.trace)
    && (s.state == ConnData ==> |s.env.rcptTo| > 0)
  }

  // ----- the proofs

  lemma {:induction false} HistoryStep(trace: seq<Event>, e: Event)
    ensures Recipients(trace + [e])
         == if IsReset(e) then [] else if AcceptsRcpt(e) then Recipients(trace) + [e.request.to] else Recipients(trace)
    ensures Senders(trace + [e])
         == if IsReset(e) then [] else if AcceptsMail(e) then Senders(trace) + [e.request.from] else Senders(trace)
  {
    assert (trace + [e])[..|trace|] == trace;
  }

  lemma {:induction false} DeliveriesStep(trace: seq<Event>, e: Event)
    requires DeliveriesAgree(trace) && (e.Message? ==> DeliveryAgrees(e, trace))
    ensures DeliveriesAgree(trace + [e])
  {
    var t := trace + [e];
    forall i | 0 <= i < |t| && t[i].Message? ensures DeliveryAgrees(t[i], t[..i]) {
      if i < |trace| {
        assert t[..i] == trace[..i];
      } else {
        assert t[..i] == trace;
      }
    }
  }

  /** An event that is neither a reset nor an accepted MAIL or RCPT changes nothing in the history's view. */
  lemma {:induction false} QuietEvent(s: Session, s': Session, e: Event)
    requires HistoryInv(s) && s'.trace == s.trace + [e] && (e.Message? ==> DeliveryAgrees(e, s.trace))
    requires !IsReset(e) && !AcceptsRcpt(e) && !AcceptsMail(e)
    requires s'.env.rcptTo == s.env.rcptTo && s'.env.mailFrom == s.env.mailFrom
    requires s'.state == ConnData ==> |s.env.rcptTo| > 0
    ensures HistoryInv(s')
  {
    HistoryStep(s.trace, e);
    DeliveriesStep(s.trace, e);
  }

  lemma {:induction false} ResetEvent(s: Session, s': Session, e: Event)
    requires HistoryInv(s) && s'.trace == s.trace + [e] && IsReset(e) && (e.Message? ==> DeliveryAgrees(e, s.trace))
    requires s'.env.rcptTo == [] && s'.env.mailFrom == None && s'.state != ConnData
    ensures HistoryInv(s')
  {
    HistoryStep(s.trace, e);
    DeliveriesStep(s.trace, e);
  }

  lemma {:induction false} XClientKeepsAddresses(cfg: Config, e: EnvelopeValue, toks: seq<string>)
    ensures var e' := XClientTokens(cfg, e, toks); e'.rcptTo == e.rcptTo && e'.mailFrom == e.mailFrom
  {
    if toks != [] {
      XClientKeepsAddresses(cfg, e, toks[..|toks| - 1]);
    }
  }

  predicate ResetRequest(r: Request) {
    r.HeloRequest? || r.EhloRequest? || r == Plain(Rset)
  }

  /** What a request may do to the transaction, by request and answer. */
  predicate EffectOk(s: Session, r: Request, e: Effect) {
    var before, after := s.env, e.s.env;
    && e.s.trace == s.trace
    && (e.s.state == ConnData ==> s.state == ConnData || (before.rcptTo != [] && r == Plain(Data)))
    && if ResetRequest(r) then after.rcptTo == [] && after.mailFrom == None
       else if r.RcptRequest? && e.reply == SuccessRcpt then
         r.to.Some? && after.rcptTo == before.rcptTo + [r.to.value] && after.mailFrom == before.mailFrom
       else if r.MailRequest? && e.reply == SuccessMail then
         before.mailFrom == None && r.from.Some? && after.mailFrom == r.from && after.rcptTo == before.rcptTo
       else after.rcptTo == before.rcptTo && after.mailFrom == before.mailFrom
  }

  lemma {:induction false} PlainEffectOk(cfg: Config, s: Session, c: Command)
    ensures EffectOk(s, Plain(c), OnPlain(cfg, s, c))
  {
  }

  lemma {:induction false} MailEffectOk(s: Session, from: Option<Address>, utf8: bool)
    ensures EffectOk(s, MailRequest(from, utf8), OnMail(s, from, utf8))
  {
  }

  lemma {:induction false} RcptEffectOk(cfg: Config, s: Session, to: Option<Address>)
    ensures EffectOk(s, RcptRequest(to), OnRcpt(cfg, s, to))
  {
  }

  lemma {:induction false} ProxyEffectOk(cfg: Config, s: Session, toks: seq<string>)
    ensures EffectOk(s, ProxyRequest(toks), OnProxy(cfg, s, toks))
  {
  }

  lemma {:induction false} XClientEffectOk(cfg: Config, s: Session, toks: seq<string>)
    ensures EffectOk(s, XClientRequest(toks), OnRequest(cfg, s, XClientRequest(toks)))
  {
    XClientKeepsAddresses(cfg, s.env, toks);
  }

  lemma {:induction false} HelloEffectOk(cfg: Config, s: Session, r: Request)
    requires r.HeloRequest? || r.EhloRequest?
    ensures EffectOk(s, r, OnRequest(cfg, s, r))
  {
  }

  lemma {:induction false} RequestEffectOk(cfg: Config, s: Session, r: Request)
    ensures EffectOk(s, r, OnRequest(cfg, s, r))
  {
    match r
    case XClientRequest(toks) => XClientEffectOk(cfg, s, toks);
    case ProxyRequest(toks) => ProxyEffectOk(cfg, s, toks);
    case MailRequest(from, utf8) => MailEffectOk(s, from, utf8);
    case RcptRequest(to) => RcptEffectOk(cfg, s, to);
    case Plain(c) => PlainEffectOk(cfg, s, c);
    case _ => HelloEffectOk(cfg, s, r);
  }

  lemma {:induction false} AcceptedRcpt(before: EnvelopeValue, after: EnvelopeValue, trace: seq<Event>, e: Event)
    requires Agrees(before, trace) && AcceptsRcpt(e) && e.request.to.Some?
    requires after.rcptTo == before.rcptTo + [e.request.to.value] && after.mailFrom == before.mailFrom
    ensures Agrees(after, trace + [e])
  {
    HistoryStep(trace, e);
    assert Somes(after.rcptTo) == Somes(before.rcptTo) + [e.request.to];
  }

  lemma {:induction false} AcceptedMail(before: EnvelopeValue, after: EnvelopeValue, trace: seq<Event>, e: Event)
    requires Agrees(before, trace) && AcceptsMail(e) && e.request.from.Some? && before.mailFrom == None
    requires after.mailFrom == e.request.from && after.rcptTo == before.rcptTo
    ensures Agrees(after, trace + [e])
  {
    HistoryStep(trace, e);
  }

  lemma {:induction false} CommandKeepsHistory(cfg: Config, s: Session, line: string, input: Input)
    requires HistoryInv(s) && s.state == ConnCmd
    ensures HistoryInv(CommandTurn(cfg, s, line, input))
  {
    var r := ParseRequest(cfg, line);
    EffectKeepsHistory(s, r, OnRequest(cfg, s, r), line, input) by {
      RequestEffectOk(cfg, s, r);
    }
  }

  lemma {:induction false} EffectKeepsHistory(s: Session, r: Request, eff: Effect, line: string, input: Input)
    requires HistoryInv(s) && s.state == ConnCmd && EffectOk(s, r, eff)
    ensures HistoryInv(Answer(eff, line, r, input))
  {
    var s', e := Answer(eff, line, r, input), Exchange(line, r, eff.reply);
    if IsReset(e) {
      ResetEvent(s, s', e);
    } else if AcceptsRcpt(e) {
      AcceptedRcpt(s.env, s'.env, s.trace, e);
      DeliveriesStep(s.trace, e);
    } else if AcceptsMail(e) {
      AcceptedMail(s.env, s'.env, s.trace, e);
      DeliveriesStep(s.trace, e);
    } else {
      QuietEvent(s, s', e);
    }
  }

  lemma {:induction false} DataKeepsHistory(s: Session, input: Input)
    requires HistoryInv(s) && s.state == ConnData
    ensures HistoryInv(DataTurn(s, input))
  {
    var s' := DataTurn(s, input);
    var e := s'.trace[|s.trace|];
    if input.message.Complete? {
      ResetEvent(s, s', e);
    } else {
      QuietEvent(s, s', e);
    }
  }

  lemma {:induction false} LineKeepsHistory(cfg: Config, s: Session, input: Input)
    requires HistoryInv(s) && s.state == ConnCmd
    ensures HistoryInv(LineTurn(cfg, s, input))
  {
    match input.line
    case Line(line) =>
      if !input.shuttingDown {
        CommandKeepsHistory(cfg, s, line, input);
      }
    case LineLimit => QuietEvent(s, LineTurn(cfg, s, input), Said(FailLineTooLong));
    case _ =>
  }

  /** Every turn, whatever happens outside, keeps the session in agreement with its history. */
  lemma {:induction false} TurnKeepsHistory(cfg: Config, s: Session, input: Input)
    requires HistoryInv(s)
    ensures HistoryInv(Turn(cfg, s, input))
  {
    var s' := Turn(cfg, s, input);
    if !Finished(s) && !s.bufErr {
      match s.state
      case ConnCmd => LineKeepsHistory(cfg, s, input);
      case ConnData => DataKeepsHistory(s, input);
      case ConnStartTLS =>
        if !s.env.tls && cfg.hasTLS {
          if input.handshakeSucceeds {
            ResetEvent(s, s', Upgrade(true));
          } else {
            QuietEvent(s, s', Upgrade(false));
          }
        }
      case _ => QuietEvent(s, s', s'.trace[|s.trace|]);
    }
  }

  lemma {:induction false} OpenAgrees(cfg: Config, remoteAddr: string, handshakeSucceeds: bool)
    ensures HistoryInv(Open(cfg, remoteAddr, handshakeSucceeds))
  {
  }

  lemma {:induction false} TurnKeepsLines(cfg: Config, s: Session, input: Input)
    requires LinesParsed(cfg, s.trace)
    ensures LinesParsed(cfg, Turn(cfg, s, input).trace)
  {
    if !Finished(s) && !s.bufErr {
      if s.state == ConnCmd && input.line.Line? {
        CommandKeepsLines(cfg, s, input.line.text, input);
      } else {
        OtherTurnKeepsLines(cfg, s, input);
      }
    }
  }

  lemma {:induction false} CommandKeepsLines(cfg: Config, s: Session, line: string, input: Input)
    requires LinesParsed(cfg, s.trace)
    ensures LinesParsed(cfg, CommandTurn(cfg, s, line, input).trace)
  {
    RequestEffectOk(cfg, s, ParseRequest(cfg, line));
  }

  lemma {:induction false} OtherTurnKeepsLines(cfg: Config, s: Session, input: Input)
    requires LinesParsed(cfg, s.trace)
    requires !Finished(s) && !s.bufErr && !(s.state == ConnCmd && input.line.Line?)
    ensures LinesParsed(cfg, Turn(cfg, s, input).trace)
  {
    match s.state
    case ConnGreeting => NotALine(cfg, s.trace, Said(Greeting));
    case ConnShutdown => NotALine(cfg, s.trace, Said(ShutdownReply));
    case ConnData => NotALine(cfg, s.trace, DataTurn(s, input).trace[|s.trace|]);
    case ConnStartTLS => NotALine(cfg, s.trace, Upgrade(input.handshakeSucceeds));
    case ConnCmd => NotALine(cfg, s.trace, Said(FailLineTooLong));
  }

  lemma {:induction false} NotALine(cfg: Config, trace: seq<Event>, e: Event)
    requires LinesParsed(cfg, trace) && !e.Exchange?
    ensures LinesParsed(cfg, trace + [e])
  {
  }

  /**
   In every run, each envelope that reaches the handler carries exactly the
   recipients accepted since the last reset, in order and at least one, and the
   only accepted sender since then; a message whose read failed is not delivered.
   */
  lemma {:induction false} DeliveredEnvelopesMatchHistory(cfg: Config, remoteAddr: string, handshakeSucceeds: bool,
                                                          inputs: seq<Input>)
    ensures HistoryInv(Run(cfg, Open(cfg, remoteAddr, handshakeSucceeds), inputs))
    ensures LinesParsed(cfg, Run(cfg, Open(cfg, remoteAddr, handshakeSucceeds), inputs).trace)
    decreases |inputs|
  {
    if inputs == [] {
      OpenAgrees(cfg, remoteAddr, handshakeSucceeds);
    } else {
      DeliveredEnvelopesMatchHistory(cfg, remoteAddr, handshakeSucceeds, inputs[..|inputs| - 1]);
      var before := Run(cfg, Open(cfg, remoteAddr, handshakeSucceeds), inputs[..|inputs| - 1]);
      TurnKeepsHistory(cfg, before, inputs[|inputs| - 1]);
      TurnKeepsLines(cfg, before, inputs[|inputs| - 1]);
    }
  }

  // ----- bounds

  predicate AnswersUnrecognized(e: Event) {
    e.Exchange? && e.reply in {FailUnrecognized, FailMaxUnrecognized}
  }

  function UnrecognizedAnswers(trace: seq<Event>): nat {
    if trace == [] then 0
    else UnrecognizedAnswers(trace[..|trace| - 1]) + if AnswersUnrecognized(trace[|trace| - 1]) then 1 else 0
  }

  predicate BoundsInv(cfg: Config, s: Session) {
    && |s.env.rcptTo| <= cfg.maxRecipients + 1
    && UnrecognizedAnswers(s.trace) <= s.errors
    && (if s.killed then UnrecognizedAnswers(s.trace) <= cfg.maxUnrecognized
        else UnrecognizedAnswers(s.trace) < cfg.maxUnrecognized)
  }

  lemma {:induction false} UnrecognizedStep(trace: seq<Event>, e: Event)
    ensures UnrecognizedAnswers(trace + [e]) == UnrecognizedAnswers(trace) + if AnswersUnrecognized(e) then 1 else 0
  {
    assert (trace + [e])[..|trace|] == trace;
  }

  /** An event that does not answer an unrecognized command and accepts no recipient. */
  lemma {:induction false} HarmlessEvent(cfg: Config, s: Session, s': Session, e: Event)
    requires cfg.maxRecipients >= 0
    requires BoundsInv(cfg, s) && !s.killed && s'.trace == s.trace + [e]
    requires !AnswersUnrecognized(e)
    requires |s'.env.rcptTo| <= |s.env.rcptTo| && s'.errors >= s.errors
    ensures BoundsInv(cfg, s')
  {
    UnrecognizedStep(s.trace, e);
  }

  /** What a request may do to the counters. */
  predicate EffectBounded(cfg: Config, s: Session, e: Effect) {
    && e.s.trace == s.trace && e.s.errors >= s.errors
    && |e.s.env.rcptTo| <= (if |s.env.rcptTo| <= cfg.maxRecipients then cfg.maxRecipients + 1 else |s.env.rcptTo|)
    && (e.reply in {FailUnrecognized, FailMaxUnrecognized} ==>
          e.s.errors == s.errors + 1 && (!e.s.killed ==> e.s.errors < cfg.maxUnrecognized))
  }

  lemma {:induction false} MailBounded(cfg: Config, s: Session, from: Option<Address>, utf8: bool)
    ensures EffectBounded(cfg, s, OnMail(s, from, utf8))
  {
  }

  lemma {:induction false} RcptBounded(cfg: Config, s: Session, to: Option<Address>)
    ensures EffectBounded(cfg, s, OnRcpt(cfg, s, to))
  {
  }

  lemma {:induction false} ProxyBounded(cfg: Config, s: Session, toks: seq<string>)
    ensures EffectBounded(cfg, s, OnProxy(cfg, s, toks))
  {
  }

  lemma {:induction false} RequestBounded(cfg: Config, s: Session, r: Request)
    requires cfg.maxRecipients >= 0 && !s.killed
    ensures EffectBounded(cfg, s, OnRequest(cfg, s, r))
  {
    match r
    case XClientRequest(toks) => XClientKeepsAddresses(cfg, s.env, toks);
    case ProxyRequest(toks) => ProxyBounded(cfg, s, toks);
    case MailRequest(from, utf8) => MailBounded(cfg, s, from, utf8);
    case RcptRequest(to) => RcptBounded(cfg, s, to);
    case Plain(c) => PlainBounded(cfg, s, c);
    case _ =>
  }

  lemma {:induction false} PlainBounded(cfg: Config, s: Session, c: Command)
    requires cfg.maxRecipients >= 0 && !s.killed
    ensures EffectBounded(cfg, s, OnPlain(cfg, s, c))
  {
  }

  lemma {:induction false} CommandKeepsBounds(cfg: Config, s: Session, line: string, input: Input)
    requires cfg.maxRecipients >= 0 && cfg.maxUnrecognized > 0
    requires BoundsInv(cfg, s) && !s.killed
    ensures BoundsInv(cfg, CommandTurn(cfg, s, line, input))
  {
    var r := ParseRequest(cfg, line);
    EffectKeepsBounds(cfg, s, r, OnRequest(cfg, s, r), line, input) by {
      RequestBounded(cfg, s, r);
    }
  }

  lemma {:induction false} EffectKeepsBounds(cfg: Config, s: Session, r: Request, eff: Effect, line: string,
                                             input: Input)
    requires cfg.maxUnrecognized > 0
    requires BoundsInv(cfg, s) && !s.killed && EffectBounded(cfg, s, eff)
    ensures BoundsInv(cfg, Answer(eff, line, r, input))
  {
    UnrecognizedStep(s.trace, Exchange(line, r, eff.reply));
  }

  lemma {:induction false} TurnKeepsBounds(cfg: Config, s: Session, input: Input)
    requires cfg.maxRecipients >= 0 && cfg.maxUnrecognized > 0
    requires BoundsInv(cfg, s)
    ensures BoundsInv(cfg, Turn(cfg, s, input))
  {
    if !Finished(s) && !s.bufErr {
      if s.state == ConnCmd && input.line.Line? {
        if !input.shuttingDown {
          CommandKeepsBounds(cfg, s, input.line.text, input);
        }
      } else {
        OtherTurnKeepsBounds(cfg, s, input);
      }
    }
  }

  lemma {:induction false} OtherTurnKeepsBounds(cfg: Config, s: Session, input: Input)
    requires cfg.maxRecipients >= 0 && cfg.maxUnrecognized > 0
    requires BoundsInv(cfg, s) && !Finished(s) && !s.bufErr && !(s.state == ConnCmd && input.line.Line?)
    ensures BoundsInv(cfg, Turn(cfg, s, input))
  {
    var s' := Turn(cfg, s, input);
    match s.state
    case ConnGreeting => HarmlessEvent(cfg, s, s', Said(Greeting));
    case ConnShutdown => HarmlessEvent(cfg, s, s'.(killed := false), Said(ShutdownReply));
    case ConnData => DataKeepsBounds(cfg, s, input);
    case ConnStartTLS =>
      if !s.env.tls && cfg.hasTLS {
        HarmlessEvent(cfg, s, s', Upgrade(input.handshakeSucceeds));
      }
    case ConnCmd =>
      if input.line.LineLimit? {
        HarmlessEvent(cfg, s, s', Said(FailLineTooLong));
      }
  }

  lemma {:induction false} DataKeepsBounds(cfg: Config, s: Session, input: Input)
    requires cfg.maxRecipients >= 0 && BoundsInv(cfg, s) && !s.killed
    ensures BoundsInv(cfg, DataTurn(s, input))
  {
    var s' := DataTurn(s, input);
    HarmlessEvent(cfg, s, s', s'.trace[|s.trace|]);
  }

  /**
   In every reachable state there is at most one recipient more than configured,
   and no run answers more unrecognized commands than configured.
   */
  lemma {:induction false} SessionBounds(cfg: Config, remoteAddr: string, handshakeSucceeds: bool, inputs: seq<Input>)
    requires cfg.maxRecipients >= 0 && cfg.maxUnrecognized > 0
    ensures BoundsInv(cfg, Run(cfg, Open(cfg, remoteAddr, handshakeSucceeds), inputs))
    decreases |inputs|
  {
    if inputs != [] {
      SessionBounds(cfg, remoteAddr, handshakeSucceeds, inputs[..|inputs| - 1]);
      TurnKeepsBounds(cfg, Run(cfg, Open(cfg, remoteAddr, handshakeSucceeds), inputs[..|inputs| - 1]),
                      inputs[|inputs| - 1]);
    }
  }
}
