/**
 The session as the program keeps it: an envelope object that commands fill in
 place and a connection object that swaps it for a new one at every reset. Every
 turn does what `Session.Turn` says, and leaves alone every envelope that a
 handler has already received.
 */
module Connection {
  import opened Text
  import opened Strings
  import opened Session

  class Envelope {
    var remoteAddr: string
    var helo: string
    var tls: bool
    var utf8: bool
    var esmtp: bool
    var mailFrom: Option<Address>
    var rcptTo: seq<Address>
    var data: string

    ghost function Value(): EnvelopeValue
      reads this
    {
      EnvelopeValue(remoteAddr, helo, tls, utf8, esmtp, mailFrom, rcptTo, data)
    }

    constructor (remoteAddr: string)
      ensures Value() == EnvelopeValue(remoteAddr, "", false, false, false, None, [], "")
    {
      this.remoteAddr, helo, tls, utf8, esmtp := remoteAddr, "", false, false, false;
      mailFrom, rcptTo, data := None, [], "";
    }

    /** One KEY=VALUE token of an XCLIENT command. */
    method SetFromToken(cfg: Config, tok: string)
      modifies this
      ensures Value() == XClientToken(cfg, old(Value()), tok)
    {
      var c := Cut(tok, '=');
      if c.found {
        if c.after == "[UNAVAILABLE]" {
          return;
        }
        if c.before == "ADDR" {
          remoteAddr := cfg.parseIP(c.after);
        }
        if c.before == "HELO" {
          helo := c.after;
        }
      }
    }

    /** The handler may change what it was given, in any way. */
    method Handled(left: EnvelopeValue)
      modifies this
      ensures Value() == left
    {
      remoteAddr, helo, tls, utf8, esmtp := left.remoteAddr, left.helo, left.tls, left.utf8, left.esmtp;
      mailFrom, rcptTo, data := left.mailFrom, left.rcptTo, left.data;
    }
  }

  class Connection {
    var envelope: Envelope
    var state: ConnState
    var killed: bool
    var returned: bool
    var errors: nat
    var messagesSent: nat
    var bufErr: bool
    var utf8Charset: bool
    var offersTLS: bool
    ghost var trace: seq<Event>
    /** The envelopes handlers have received, and what they left in them. */
    ghost var kept: map<Envelope, EnvelopeValue>

    ghost predicate KeptIntact()
      reads this, kept.Keys
    {
      forall e :: e in kept ==> e.Value() == kept[e]
    }

    ghost predicate Valid()
      reads this, kept.Keys
    {
      envelope !in kept && KeptIntact()
    }

    ghost function View(): Session
      reads this, envelope
    {
      Session(envelope.Value(), state, killed, returned, errors, messagesSent, bufErr, utf8Charset, offersTLS, trace)
    }

    /** What handlers kept before is still there, unchanged, and the envelope in use is the same or a new one. */
    twostate predicate Orderly()
      reads this, kept.Keys
    {
      && Valid()
      && (envelope == old(envelope) || fresh(envelope))
      && forall e :: e in old(kept) ==> e in kept && kept[e] == old(kept[e]) && e.Value() == old(e.Value())
    }

    /** `newConnection`, and the handshake of a server that is always on TLS. */
    constructor (cfg: Config, remoteAddr: string, handshakeSucceeds: bool)
      ensures Valid() && kept == map[] && fresh(envelope)
      ensures View() == Open(cfg, remoteAddr, handshakeSucceeds)
    {
      envelope := new Envelope(remoteAddr);
      state, killed, returned, errors, messagesSent := ConnGreeting, false, false, 0, 0;
      bufErr, utf8Charset, offersTLS := false, false, cfg.hasTLS;
      trace, kept := [], map[];
      new;
      if cfg.tlsAlwaysOn && cfg.hasTLS {
        offersTLS := false;
        if handshakeSucceeds {
          envelope.tls := true;
        } else {
          killed, returned := true, true;
        }
      }
    }

    method ResetTransaction()
      requires KeptIntact()
      modifies this`envelope
      ensures Valid() && fresh(envelope)
      ensures View() == old(View()).(env := Reset(old(View()).env))
    {
      envelope := new Envelope(envelope.remoteAddr);
    }

    predicate IsInTransaction()
      reads this, envelope
      ensures IsInTransaction() == InTransaction(View().env)
    {
      envelope.mailFrom.Some? && envelope.mailFrom.value != ""
    }

    // ----- the cases of the switch over the commands; each returns its answer

    method Hello(name: string) returns (reply: Reply)
      requires Valid()
      modifies this`envelope
      ensures Orderly() && kept == old(kept)
      ensures Effect(View(), reply) == Effect(old(View()).(env := Reset(old(View()).env).(helo := name)), HeloReply)
    {
      ResetTransaction();
      envelope.helo := name;
      reply := HeloReply;
    }

    method ExtendedHello(name: string) returns (reply: Reply)
      requires Valid()
      modifies this`envelope
      ensures Orderly() && kept == old(kept)
      ensures Effect(View(), reply)
           == Effect(old(View()).(env := Reset(old(View()).env).(helo := name, esmtp := true)),
                     EhloReply(old(offersTLS)))
    {
      ResetTransaction();
      envelope.helo := name;
      envelope.esmtp := true;
      reply := EhloReply(offersTLS);
    }

    method XClientCommand(cfg: Config, toks: seq<string>) returns (reply: Reply)
      requires Valid()
      modifies envelope
      ensures Orderly() && kept == old(kept)
      ensures View() == old(View()).(env := XClientTokens(cfg, old(View()).env, toks)) && reply == SuccessMail
    {
      for i := 0 to |toks|
        invariant Valid() && envelope == old(envelope) && kept == old(kept)
        invariant View() == old(View()).(env := XClientTokens(cfg, old(View()).env, toks[..i]))
      {
        assert toks[..i + 1][..i] == toks[..i];
        envelope.SetFromToken(cfg, toks[i]);
      }
      assert toks[..|toks|] == toks;
      reply := SuccessMail;
    }

    method ProxyCommand(cfg: Config, toks: seq<string>) returns (reply: Reply)
      requires Valid()
      modifies envelope
      ensures Orderly() && kept == old(kept)
      ensures Effect(View(), reply) == OnProxy(cfg, old(View()), toks)
    {
      if |toks| == 5 {
        envelope.remoteAddr := cfg.parseIP(toks[1]);
        reply := Greeting;
      } else if |toks| == 6 {
        envelope.remoteAddr := cfg.parseIP(toks[2]);
        reply := Greeting;
      } else {
        reply := FailSyntax;
      }
    }

    method SetSender(from: Option<Address>, utf8: bool)
      modifies this`utf8Charset, envelope
      ensures View() == old(View()).(
                utf8Charset := old(utf8Charset) || utf8,
                env := old(View()).env.(utf8 := old(envelope.utf8) || utf8, mailFrom := from))
    {
      if utf8 {
        utf8Charset := true;
        envelope.utf8 := true;
      }
      envelope.mailFrom := from;
    }

    method MailCommand(from: Option<Address>, utf8: bool) returns (reply: Reply)
      requires Valid()
      modifies this`errors, this`utf8Charset, envelope
      ensures Orderly() && kept == old(kept)
      ensures Effect(View(), reply) == OnMail(old(View()), from, utf8)
    {
      if IsInTransaction() {
        errors := errors + 1;
        return FailNestedMail;
      }
      SetSender(from, utf8);
      if from.None? {
        errors := errors + 1;
        return RejectedSender;
      }
      reply := SuccessMail;
    }

    method RcptCommand(cfg: Config, to: Option<Address>) returns (reply: Reply)
      requires Valid()
      modifies this`errors, envelope
      ensures Orderly() && kept == old(kept)
      ensures Effect(View(), reply) == OnRcpt(cfg, old(View()), to)
    {
      if |envelope.rcptTo| > cfg.maxRecipients {
        errors := errors + 1;
        return TooManyRecipients;
      }
      if to.None? {
        errors := errors + 1;
        return FailSyntax;
      }
      envelope.rcptTo := envelope.rcptTo + [to.value];
      reply := SuccessRcpt;
    }

    method QuitCommand() returns (reply: Reply)
      modifies this`killed, this`returned
      ensures Effect(View(), reply) == Effect(old(View()).(killed := true, returned := true), SuccessQuit)
    {
      killed, returned := true, true;
      reply := SuccessQuit;
    }

    method DataCommand() returns (reply: Reply)
      modifies this`state
      ensures Effect(View(), reply)
           == if old(envelope.rcptTo) == [] then Effect(old(View()), FailNoRecipients)
              else Effect(old(View()).(state := ConnData), SuccessData)
    {
      if envelope.rcptTo == [] {
        return FailNoRecipients;
      }
      state := ConnData;
      reply := SuccessData;
    }

    method StartTLSCommand(cfg: Config) returns (reply: Reply)
      modifies this`state
      ensures Effect(View(), reply)
           == if !cfg.hasTLS then Effect(old(View()), FailNotImplemented)
              else Effect(old(View()).(state := ConnStartTLS), SuccessStartTLS)
    {
      if !cfg.hasTLS {
        return FailNotImplemented;
      }
      state := ConnStartTLS;
      reply := SuccessStartTLS;
    }

    method UnrecognizedCommand(cfg: Config) returns (reply: Reply)
      modifies this`errors, this`killed
      ensures Effect(View(), reply) == OnUnrecognized(cfg, old(View()))
    {
      errors := errors + 1;
      if errors >= cfg.maxUnrecognized {
        killed := true;
        reply := FailMaxUnrecognized;
      } else {
        reply := FailUnrecognized;
      }
    }

    method ResetCommand() returns (reply: Reply)
      requires Valid()
      modifies this`envelope
      ensures Orderly() && kept == old(kept)
      ensures Effect(View(), reply) == Effect(old(View()).(env := Reset(old(View()).env)), SuccessReset)
    {
      ResetTransaction();
      reply := SuccessReset;
    }

    method PlainCommand(cfg: Config, c: Command) returns (reply: Reply)
      requires c != Rset
      modifies this`state, this`killed, this`returned, this`errors
      ensures Effect(View(), reply) == OnPlain(cfg, old(View()), c)
    {
      if c == Help {
        reply := HelpReply;
      } else if c == Vrfy {
        reply := SuccessVerify;
      } else if c == Noop {
        reply := SuccessNoop;
      } else if c == Quit {
        reply := QuitCommand();
      } else if c == Data {
        reply := DataCommand();
      } else if c == StartTLS {
        reply := StartTLSCommand(cfg);
      } else {
        reply := UnrecognizedCommand(cfg);
      }
    }

    method PerformNaming(cfg: Config, r: Request) returns (reply: Reply)
      requires Valid() && (r.HeloRequest? || r.EhloRequest? || r.XClientRequest?)
      modifies this, envelope
      ensures Orderly() && kept == old(kept)
      ensures Effect(View(), reply) == OnRequest(cfg, old(View()), r)
    {
      match r
      case HeloRequest(name) => reply := Hello(name);
      case EhloRequest(name) => reply := ExtendedHello(name);
      case XClientRequest(toks) => reply := XClientCommand(cfg, toks);
    }

    method Perform(cfg: Config, r: Request) returns (reply: Reply)
      requires Valid()
      modifies this, envelope
      ensures Orderly() && kept == old(kept)
      ensures Effect(View(), reply) == OnRequest(cfg, old(View()), r)
    {
      if r.HeloRequest? || r.EhloRequest? || r.XClientRequest? {
        reply := PerformNaming(cfg, r);
      } else {
        match r
        case ProxyRequest(toks) => reply := ProxyCommand(cfg, toks);
        case MailRequest(from, utf8) => reply := MailCommand(from, utf8);
        case RcptRequest(to) => reply := RcptCommand(cfg, to);
        case Plain(c) =>
          if c == Rset {
            reply := ResetCommand();
          } else {
            reply := PlainCommand(cfg, c);
          }
      }
    }

    // ----- the turns of the loop

    /** `sendResponse`: an answer goes out, or its write fails; the history records it. */
    method SendResponse(ghost e: Event, input: Input)
      modifies this`bufErr, this`trace
      ensures View() == old(View()).(bufErr := input.writeFails, trace := old(trace) + [e])
    {
      bufErr := input.writeFails;
      trace := trace + [e];
    }

    method CommandStep(cfg: Config, line: string, input: Input)
      requires Valid()
      modifies this, envelope
      ensures Orderly() && kept == old(kept)
      ensures View() == CommandTurn(cfg, old(View()), line, input)
    {
      var r := ParseRequest(cfg, line);
      var reply := Perform(cfg, r);
      SendResponse(Exchange(line, r, reply), input);
    }

    method NoLineStep(cfg: Config, input: Input)
      requires !input.line.Line?
      modifies this`killed, this`returned, this`bufErr, this`trace
      ensures View() == LineTurn(cfg, old(View()), input)
    {
      if input.line.LineLimit? {
        SendResponse(Said(FailLineTooLong), input);
        killed := true;
      } else if input.line.LineError? {
        killed := true;
      }
      returned := true;
    }

    method LineStep(cfg: Config, input: Input)
      requires Valid()
      modifies this, envelope
      ensures Orderly() && kept == old(kept)
      ensures View() == LineTurn(cfg, old(View()), input)
    {
      if !input.line.Line? {
        NoLineStep(cfg, input);
      } else if input.shuttingDown {
        state := ConnShutdown;
      } else {
        CommandStep(cfg, input.line.text, input);
      }
    }

    /** The handler gets the envelope itself and may change it. */
    method RunHandler(input: Input)
      requires Valid()
      modifies this`kept, envelope
      ensures kept == old(kept)[envelope := input.handlerLeaves] && KeptIntact()
      ensures View() == old(View()).(env := input.handlerLeaves)
    {
      envelope.Handled(input.handlerLeaves);
      kept := kept[envelope := envelope.Value()];
    }

    method CountAnswer(input: Input)
      modifies this`errors, this`messagesSent
      ensures View() == old(View()).(
                errors := if input.handlerSucceeds then old(errors) else old(errors) + 1,
                messagesSent := if input.handlerSucceeds then old(messagesSent) + 1 else old(messagesSent))
    {
      if input.handlerSucceeds {
        messagesSent := messagesSent + 1;
      } else {
        errors := errors + 1;
      }
    }

    method FinishMessage(ghost e: Event, input: Input)
      requires KeptIntact()
      modifies this`errors, this`messagesSent, this`bufErr, this`trace, this`state, this`envelope
      ensures Valid() && fresh(envelope)
      ensures View() == old(View()).(
                env := Reset(old(View()).env),
                errors := if input.handlerSucceeds then old(errors) else old(errors) + 1,
                messagesSent := if input.handlerSucceeds then old(messagesSent) + 1 else old(messagesSent),
                bufErr := input.writeFails,
                state := if input.shuttingDown then ConnShutdown else ConnCmd,
                trace := old(trace) + [e])
    {
      CountAnswer(input);
      SendResponse(e, input);
      state := ConnCmd;
      if input.shuttingDown {
        state := ConnShutdown;
      }
      ResetTransaction();
    }

    /** The envelope goes to the handler, and the connection takes a new one. */
    method Deliver(input: Input)
      requires Valid() && input.message.Complete?
      modifies this, envelope
      ensures Orderly() && View() == DataTurn(old(View()), input)
      ensures kept == old(kept)[old(envelope) := input.handlerLeaves]
    {
      envelope.data := envelope.data + input.message.text;
      ghost var given := envelope.Value();
      RunHandler(input);
      FinishMessage(
        Message(input.message, Some(given), envelope.remoteAddr, HandlerReply(input.handlerSucceeds)), input);
    }

    method DataStep(input: Input)
      requires Valid()
      modifies this, envelope
      ensures Orderly() && View() == DataTurn(old(View()), input)
      ensures kept == if input.message.Complete? then old(kept)[old(envelope) := input.handlerLeaves] else old(kept)
    {
      if input.message.Complete? {
        Deliver(input);
      } else {
        envelope.data := envelope.data + input.message.text;
        var reply := if input.message.OverLimit? then FailMessageSize else FailReadError;
        SendResponse(Message(input.message, None, "", reply), input);
        killed := true;
      }
    }

    method UpgradeTLS()
      requires Valid()
      modifies this`offersTLS, this`envelope, envelope
      ensures Orderly() && kept == old(kept)
      ensures View() == old(View()).(env := Reset(old(View()).env), offersTLS := false)
    {
      envelope.tls := true;
      offersTLS := false;
      ResetTransaction();
    }

    method StartTLSStep(cfg: Config, input: Input)
      requires Valid()
      modifies this, envelope
      ensures Orderly() && kept == old(kept)
      ensures View() == StartTLSTurn(cfg, old(View()), input)
    {
      state := ConnCmd;
      if envelope.tls || !cfg.hasTLS {
        return;
      }
      trace := trace + [Upgrade(input.handshakeSucceeds)];
      if input.handshakeSucceeds {
        UpgradeTLS();
      }
    }

    /** One turn of the loop of a live connection. */
    method Step(cfg: Config, input: Input)
      requires Valid() && !killed && !returned
      modifies this, envelope
      ensures Orderly() && View() == Turn(cfg, old(View()), input)
      ensures kept == if Delivers(old(View()), input) then old(kept)[old(envelope) := input.handlerLeaves]
              else old(kept)
    {
      if bufErr {
        returned := true;
        return;
      }
      match state
      case ConnGreeting =>
        SendResponse(Said(Greeting), input);
        state := ConnCmd;
      case ConnCmd => LineStep(cfg, input);
      case ConnData => DataStep(input);
      case ConnStartTLS => StartTLSStep(cfg, input);
      case ConnShutdown =>
        SendResponse(Said(ShutdownReply), input);
        killed := true;
    }
  }

  // ----- whole sessions

  /** This turn hands a message to the handler. */
  predicate Delivers(s: Session, input: Input) {
    !Finished(s) && !s.bufErr && s.state == ConnData && input.message.Complete?
  }

  predicate IsDelivery(e: Event) {
    e.Message? && e.delivered.Some?
  }

  function Deliveries(trace: seq<Event>): nat {
    if trace == [] then 0
    else Deliveries(trace[..|trace| - 1]) + if IsDelivery(trace[|trace| - 1]) then 1 else 0
  }

  lemma {:induction false} DeliveriesSnoc(trace: seq<Event>, e: Event)
    ensures Deliveries(trace + [e]) == Deliveries(trace) + if IsDelivery(e) then 1 else 0
  {
    assert (trace + [e])[..|trace|] == trace;
  }

  lemma {:induction false} TurnCountsDeliveries(cfg: Config, s: Session, input: Input)
    ensures Deliveries(Turn(cfg, s, input).trace) == Deliveries(s.trace) + if Delivers(s, input) then 1 else 0
  {
    if !Finished(s) && !s.bufErr {
      if s.state == ConnCmd {
        LineCountsNoDelivery(cfg, s, input);
      } else if s.state == ConnData {
        DataCountsDelivery(s, input);
      } else {
        OtherCountsNoDelivery(cfg, s, input);
      }
    }
  }

  lemma {:induction false} OtherCountsNoDelivery(cfg: Config, s: Session, input: Input)
    requires !Finished(s) && !s.bufErr && s.state != ConnCmd && s.state != ConnData
    ensures Deliveries(Turn(cfg, s, input).trace) == Deliveries(s.trace)
  {
    DeliveriesSnoc(s.trace, Said(Greeting));
    DeliveriesSnoc(s.trace, Said(ShutdownReply));
    DeliveriesSnoc(s.trace, Upgrade(input.handshakeSucceeds));
  }

  lemma {:induction false} DataCountsDelivery(s: Session, input: Input)
    ensures Deliveries(DataTurn(s, input).trace) == Deliveries(s.trace) + if input.message.Complete? then 1 else 0
  {
    DeliveriesSnoc(s.trace, DataTurn(s, input).trace[|s.trace|]);
  }

  lemma {:induction false} CommandCountsNoDelivery(cfg: Config, s: Session, line: string, input: Input)
    ensures Deliveries(CommandTurn(cfg, s, line, input).trace) == Deliveries(s.trace)
  {
    var r := ParseRequest(cfg, line);
    RequestEffectOk(cfg, s, r);
    DeliveriesSnoc(s.trace, Exchange(line, r, OnRequest(cfg, s, r).reply));
  }

  lemma {:induction false} LineCountsNoDelivery(cfg: Config, s: Session, input: Input)
    ensures Deliveries(LineTurn(cfg, s, input).trace) == Deliveries(s.trace)
  {
    if input.line.Line? {
      CommandCountsNoDelivery(cfg, s, input.line.text, input);
    } else {
      DeliveriesSnoc(s.trace, Said(FailLineTooLong));
    }
  }

  lemma {:induction false} FinishedStays(cfg: Config, s: Session, inputs: seq<Input>, n: nat)
    requires n <= |inputs| && Finished(Run(cfg, s, inputs[..n]))
    ensures Run(cfg, s, inputs) == Run(cfg, s, inputs[..n])
    decreases |inputs|
  {
    if n < |inputs| {
      assert inputs[..|inputs| - 1][..n] == inputs[..n];
      FinishedStays(cfg, s, inputs[..|inputs| - 1], n);
    } else {
      assert inputs[..n] == inputs;
    }
  }

  /** What the handlers left in the envelopes they received during a run, in order. */
  function Lefts(cfg: Config, s: Session, inputs: seq<Input>): seq<EnvelopeValue> {
    if inputs == [] then []
    else
      var init, last := inputs[..|inputs| - 1], inputs[|inputs| - 1];
      Lefts(cfg, s, init) + if Delivers(Run(cfg, s, init), last) then [last.handlerLeaves] else []
  }

  lemma {:induction false} FinishedLeavesNothing(cfg: Config, s: Session, inputs: seq<Input>, n: nat)
    requires n <= |inputs| && Finished(Run(cfg, s, inputs[..n]))
    ensures Lefts(cfg, s, inputs) == Lefts(cfg, s, inputs[..n])
    decreases |inputs|
  {
    if n < |inputs| {
      var init := inputs[..|inputs| - 1];
      assert init[..n] == inputs[..n];
      FinishedLeavesNothing(cfg, s, init, n);
      FinishedStays(cfg, s, init, n);
    } else {
      assert inputs[..n] == inputs;
    }
  }

  /** The envelopes are pairwise distinct, they are all that is kept, and each is kept with the value at its place. */
  ghost predicate Keeps(kept: map<Envelope, EnvelopeValue>, given: seq<Envelope>, values: seq<EnvelopeValue>) {
    && |given| == |values|
    && (forall i, j :: 0 <= i < j < |given| ==> given[i] != given[j])
    && (forall i :: 0 <= i < |given| ==> given[i] in kept && kept[given[i]] == values[i])
    && (forall e :: e in kept ==> e in given)
  }

  lemma {:induction false} KeepsSnoc(kept: map<Envelope, EnvelopeValue>, given: seq<Envelope>,
                                     values: seq<EnvelopeValue>, e: Envelope, v: EnvelopeValue)
    requires Keeps(kept, given, values) && e !in kept
    ensures Keeps(kept[e := v], given + [e], values + [v])
  {
  }

  /**
   `handleConn`: turns until the connection ends or nothing more comes from
   outside. Each delivered message had a new envelope of its own (`given`, in
   order), and when the session is over every one of them still holds what its
   handler left in it.
   */
  method HandleConn(cfg: Config, remoteAddr: string, handshakeSucceeds: bool, inputs: seq<Input>)
    returns (conn: Connection, ghost given: seq<Envelope>)
    ensures fresh(conn) && conn.Valid()
    ensures conn.View() == Run(cfg, Open(cfg, remoteAddr, handshakeSucceeds), inputs)
    ensures |given| == Deliveries(conn.trace) && conn.envelope !in given
    ensures |given| == |Lefts(cfg, Open(cfg, remoteAddr, handshakeSucceeds), inputs)|
    ensures forall i, j :: 0 <= i < j < |given| ==> given[i] != given[j]
    ensures forall i :: 0 <= i < |given| ==>
              fresh(given[i]) && given[i].Value() == Lefts(cfg, Open(cfg, remoteAddr, handshakeSucceeds), inputs)[i]
  {
    ghost var start := Open(cfg, remoteAddr, handshakeSucceeds);
    conn := new Connection(cfg, remoteAddr, handshakeSucceeds);
    given := [];
    var i := 0;
    while i < |inputs| && !conn.killed && !conn.returned
      invariant i <= |inputs| && fresh(conn) && fresh(conn.envelope) && conn.Valid()
      invariant conn.View() == Run(cfg, start, inputs[..i])
      invariant |given| == Deliveries(conn.trace) && forall e :: e in given ==> fresh(e)
      invariant Keeps(conn.kept, given, Lefts(cfg, start, inputs[..i]))
    {
      assert inputs[..i + 1][..i] == inputs[..i];
      TurnCountsDeliveries(cfg, conn.View(), inputs[i]);
      if Delivers(conn.View(), inputs[i]) {
        KeepsSnoc(conn.kept, given, Lefts(cfg, start, inputs[..i]), conn.envelope, inputs[i].handlerLeaves);
        given := given + [conn.envelope];
      }
      conn.Step(cfg, inputs[i]);
      i := i + 1;
    }
    if i < |inputs| {
      FinishedStays(cfg, start, inputs, i);
      FinishedLeavesNothing(cfg, start, inputs, i);
    } else {
      assert inputs[..i] == inputs;
    }
  }
}
