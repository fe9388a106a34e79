/**
 Runs in which a session delivers one recipient more than configured, delivers a
 message without the TLS mark after a successful STARTTLS, upgrades any number of
 times, and is killed at its first unrecognized command.
 */
module SessionRuns {
  import opened Text
  import opened Strings
  import opened Session
  import opened SessionAnswers
  import opened CommandLines

  const NOBODY := EnvelopeValue("", "", false, false, false, None, [], "")

  /** A command line, and nothing else unusual in the turn. */
  function Ask(line: string): Input {
    Input(Line(line), Complete(""), true, NOBODY, true, false, false)
  }

  lemma {:induction false} RunSnoc(cfg: Config, s: Session, inputs: seq<Input>, input: Input)
    ensures Run(cfg, s, inputs + [input]) == Turn(cfg, Run(cfg, s, inputs), input)
  {
    assert (inputs + [input])[..|inputs|] == inputs;
  }

  lemma {:induction false} RunTwice(cfg: Config, s: Session, a: seq<Input>, b: seq<Input>)
    ensures Run(cfg, s, a + b) == Run(cfg, Run(cfg, s, a), b)
    decreases |b|
  {
    if b == [] {
      assert a + b == a;
    } else {
      var init, last := b[..|b| - 1], b[|b| - 1];
      RunTwice(cfg, s, a, init);
      RunSnoc(cfg, s, a + init, last);
      assert a + b == a + init + [last];
    }
  }

  lemma {:induction false} RunOne(cfg: Config, s: Session, input: Input)
    ensures Run(cfg, s, [input]) == Turn(cfg, s, input)
  {
    assert [] + [input] == [input];
    RunSnoc(cfg, s, [], input);
  }

  /** The session waits for a command. */
  predicate Ready(s: Session) {
    !Finished(s) && !s.bufErr && s.state == ConnCmd
  }

  lemma {:induction false} Greeted(cfg: Config, peer: string)
    ensures var s := Run(cfg, Open(cfg, peer, true), [Ask("")]);
            Ready(s) && s.env == Open(cfg, peer, true).env && s.trace == [Said(Greeting)]
  {
    RunOne(cfg, Open(cfg, peer, true), Ask(""));
  }

  lemma {:induction false} RcptAsked(cfg: Config, arg: string)
    ensures ParseRequest(cfg, "RCPT TO:" + arg) == RcptRequest(cfg.parseAddress(TrimSpace(arg)))
  {
    var line := "RCPT TO:" + arg;
    assert line[|"RCPT TO:"|..] == arg;
    RcptLine(cfg, line, arg);
  }

  lemma {:induction false} DataAsked(cfg: Config)
    ensures ParseRequest(cfg, "DATA") == Plain(Data)
  {
    DataLine(cfg, "DATA", "");
  }

  lemma {:induction false} StartTLSAsked(cfg: Config)
    ensures ParseRequest(cfg, "STARTTLS") == Plain(StartTLS)
  {
    StartTLSLine(cfg, "STARTTLS", "");
  }

  lemma {:induction false} UnknownAsked(cfg: Config)
    ensures ParseRequest(cfg, "!") == Plain(Unrecognized)
  {
    UnrecognizedExactly(cfg, "!");
  }

  /** RCPT with an address that parses, while the guard lets it through. */
  lemma {:induction false} RcptTurn(cfg: Config, s: Session, arg: string)
    requires Ready(s) && cfg.parseAddress(TrimSpace(arg)).Some? && |s.env.rcptTo| <= cfg.maxRecipients
    ensures var s' := Turn(cfg, s, Ask("RCPT TO:" + arg));
            && Ready(s') && s.trace <= s'.trace
            && s'.env == s.env.(rcptTo := s.env.rcptTo + [cfg.parseAddress(TrimSpace(arg)).value])
  {
    RcptAsked(cfg, arg);
  }

  lemma {:induction false} MoreRecipients(cfg: Config, s: Session, arg: string, n: nat) returns (inputs: seq<Input>)
    requires Ready(s) && cfg.parseAddress(TrimSpace(arg)).Some? && |s.env.rcptTo| + n <= cfg.maxRecipients + 1
    ensures var s' := Run(cfg, s, inputs);
            && Ready(s') && s.trace <= s'.trace && |s'.env.rcptTo| == |s.env.rcptTo| + n
            && s'.env.tls == s.env.tls
  {
    if n == 0 {
      inputs := [];
    } else {
      var before := MoreRecipients(cfg, s, arg, n - 1);
      RunSnoc(cfg, s, before, Ask("RCPT TO:" + arg));
      RcptTurn(cfg, Run(cfg, s, before), arg);
      inputs := before + [Ask("RCPT TO:" + arg)];
    }
  }

  /** The last event delivers an envelope with that many recipients and that TLS mark. */
  predicate EndsDelivering(s: Session, recipients: int, tls: bool) {
    s.trace != [] && var e := s.trace[|s.trace| - 1];
    e.Message? && e.delivered.Some? && |e.delivered.value.rcptTo| == recipients && e.delivered.value.tls == tls
  }

  /** DATA and a message that reads well. */
  lemma {:induction false} Delivery(cfg: Config, s: Session) returns (inputs: seq<Input>)
    requires Ready(s) && s.env.rcptTo != []
    ensures var s' := Run(cfg, s, inputs);
            s.trace <= s'.trace && EndsDelivering(s', |s.env.rcptTo|, s.env.tls)
  {
    inputs := [Ask("DATA"), Ask("")];
    var asked := Turn(cfg, s, Ask("DATA"));
    DataAsked(cfg);
    RunOne(cfg, s, Ask("DATA"));
    RunSnoc(cfg, s, [Ask("DATA")], Ask(""));
    assert [Ask("DATA")] + [Ask("")] == [Ask("DATA"), Ask("")];
    assert asked.state == ConnData && asked.env == s.env;
  }

  /** From a ready session, RCPT `n` times, DATA and a message. */
  lemma {:induction false} Sent(cfg: Config, s: Session, arg: string, n: nat) returns (inputs: seq<Input>)
    requires Ready(s) && cfg.parseAddress(TrimSpace(arg)).Some?
    requires 0 < |s.env.rcptTo| + n <= cfg.maxRecipients + 1
    ensures var s' := Run(cfg, s, inputs);
            s.trace <= s'.trace && EndsDelivering(s', |s.env.rcptTo| + n, s.env.tls)
  {
    var rcpts := MoreRecipients(cfg, s, arg, n);
    var message := Delivery(cfg, Run(cfg, s, rcpts));
    RunTwice(cfg, s, rcpts, message);
    inputs := rcpts + message;
  }

  /** Whatever `MaxRecipients` is, some run delivers an envelope with one recipient more. */
  lemma {:induction false} OneRecipientMore(cfg: Config, peer: string, arg: string) returns (inputs: seq<Input>)
    requires cfg.maxRecipients >= 0 && cfg.parseAddress(TrimSpace(arg)).Some?
    ensures var start := Open(cfg, peer, true);
            EndsDelivering(Run(cfg, start, inputs), cfg.maxRecipients + 1, start.env.tls)
  {
    Greeted(cfg, peer);
    var start, hello := Open(cfg, peer, true), [Ask("")];
    var message := Sent(cfg, Run(cfg, start, hello), arg, cfg.maxRecipients + 1);
    RunTwice(cfg, start, hello, message);
    inputs := hello + message;
  }

  // ----- STARTTLS

  /** STARTTLS and a handshake that succeeds. */
  lemma {:induction false} UpgradeTurns(cfg: Config, s: Session) returns (inputs: seq<Input>)
    requires Ready(s) && !s.env.tls && cfg.hasTLS
    ensures var s' := Run(cfg, s, inputs);
            && Ready(s') && !s'.env.tls && s'.env.rcptTo == []
            && s'.trace == s.trace + [Exchange("STARTTLS", Plain(StartTLS), SuccessStartTLS)] + [Upgrade(true)]
  {
    inputs := [Ask("STARTTLS"), Ask("")];
    StartTLSAsked(cfg);
    RunOne(cfg, s, Ask("STARTTLS"));
    RunSnoc(cfg, s, [Ask("STARTTLS")], Ask(""));
    assert [Ask("STARTTLS")] + [Ask("")] == [Ask("STARTTLS"), Ask("")];
    var asked := Turn(cfg, s, Ask("STARTTLS"));
    assert asked.state == ConnStartTLS && asked.env == s.env;
    assert Run(cfg, s, inputs).trace == asked.trace + [Upgrade(true)];
  }

  lemma {:induction false} MoreUpgrades(cfg: Config, s: Session, n: nat) returns (inputs: seq<Input>)
    requires Ready(s) && !s.env.tls && cfg.hasTLS
    ensures var s' := Run(cfg, s, inputs);
            Ready(s') && !s'.env.tls && Upgrades(s'.trace) == Upgrades(s.trace) + n
  {
    if n == 0 {
      inputs := [];
    } else {
      var before := MoreUpgrades(cfg, s, n - 1);
      var asked := Exchange("STARTTLS", Plain(StartTLS), SuccessStartTLS);
      var between := Run(cfg, s, before);
      var upgrade := UpgradeTurns(cfg, between);
      RunTwice(cfg, s, before, upgrade);
      UpgradesSnoc(between.trace, asked);
      UpgradesSnoc(between.trace + [asked], Upgrade(true));
      inputs := before + upgrade;
    }
  }

  /** On every server that offers STARTTLS, a session can upgrade any number of times, inside the TLS it already has. */
  lemma {:induction false} UpgradesAgain(cfg: Config, peer: string, n: nat) returns (inputs: seq<Input>)
    requires cfg.hasTLS && !cfg.tlsAlwaysOn
    ensures var s := Run(cfg, Open(cfg, peer, true), inputs);
            Ready(s) && Upgrades(s.trace) == n
  {
    Greeted(cfg, peer);
    var start, hello := Open(cfg, peer, true), [Ask("")];
    UpgradesSnoc([], Said(Greeting));
    assert [] + [Said(Greeting)] == [Said(Greeting)];
    var upgrades := MoreUpgrades(cfg, Run(cfg, start, hello), n);
    RunTwice(cfg, start, hello, upgrades);
    inputs := hello + upgrades;
  }

  /** On every server that offers STARTTLS, some run delivers an envelope without the TLS mark after the upgrade. */
  lemma {:induction false} TLSMarkIsLost(cfg: Config, peer: string, arg: string) returns (inputs: seq<Input>)
    requires cfg.hasTLS && !cfg.tlsAlwaysOn && cfg.maxRecipients >= 0 && cfg.parseAddress(TrimSpace(arg)).Some?
    ensures var s := Run(cfg, Open(cfg, peer, true), inputs);
            Upgrade(true) in s.trace && EndsDelivering(s, 1, false)
  {
    Greeted(cfg, peer);
    var start, hello := Open(cfg, peer, true), [Ask("")];
    var upgrade := UpgradeTurns(cfg, Run(cfg, start, hello));
    RunTwice(cfg, start, hello, upgrade);
    var upgraded := Run(cfg, start, hello + upgrade);
    assert upgraded.trace[|upgraded.trace| - 1] == Upgrade(true);
    var message := Sent(cfg, upgraded, arg, 1);
    RunTwice(cfg, start, hello + upgrade, message);
    inputs := hello + upgrade + message;
    StillIn(Upgrade(true), upgraded.trace, Run(cfg, start, inputs).trace);
  }

  lemma {:induction false} StillIn(e: Event, before: seq<Event>, after: seq<Event>)
    requires before <= after && e in before
    ensures e in after
  {
    var i :| 0 <= i < |before| && before[i] == e;
    assert after[i] == e;
  }

  // ----- unrecognized commands

  lemma {:induction false} AskTurn(cfg: Config, s: Session, line: string, r: Request)
    requires Ready(s) && ParseRequest(cfg, line) == r
    ensures Turn(cfg, s, Ask(line)) == Answer(OnRequest(cfg, s, r), line, r, Ask(line))
  {
  }

  lemma {:induction false} RefusedEffect(cfg: Config, s: Session, line: string, input: Input)
    requires Ready(s) && !input.writeFails
    ensures var s' := Answer(OnRcpt(cfg, s, None), line, RcptRequest(None), input);
            && Ready(s') && s'.errors == s.errors + 1
            && UnrecognizedAnswers(s'.trace) == UnrecognizedAnswers(s.trace)
  {
    if |s.env.rcptTo| > cfg.maxRecipients {
      UnrecognizedStep(s.trace, Exchange(line, RcptRequest(None), TooManyRecipients));
    } else {
      UnrecognizedStep(s.trace, Exchange(line, RcptRequest(None), FailSyntax));
    }
  }

  lemma {:induction false} KilledEffect(cfg: Config, s: Session, line: string, input: Input)
    requires s.errors + 1 >= cfg.maxUnrecognized
    ensures var s' := Answer(OnUnrecognized(cfg, s), line, Plain(Unrecognized), input);
            s'.killed && UnrecognizedAnswers(s'.trace) == UnrecognizedAnswers(s.trace) + 1
  {
    UnrecognizedStep(s.trace, Exchange(line, Plain(Unrecognized), FailMaxUnrecognized));
  }

  lemma {:induction false} RefusedTurn(cfg: Config, s: Session, arg: string)
    requires Ready(s) && cfg.parseAddress(TrimSpace(arg)).None?
    ensures var s' := Turn(cfg, s, Ask("RCPT TO:" + arg));
            && Ready(s') && s'.errors == s.errors + 1
            && UnrecognizedAnswers(s'.trace) == UnrecognizedAnswers(s.trace)
  {
    var line := "RCPT TO:" + arg;
    RcptAsked(cfg, arg);
    AskTurn(cfg, s, line, RcptRequest(None));
    RefusedEffect(cfg, s, line, Ask(line));
  }

  lemma {:induction false} MoreRefused(cfg: Config, s: Session, arg: string, n: nat) returns (inputs: seq<Input>)
    requires Ready(s) && cfg.parseAddress(TrimSpace(arg)).None?
    ensures var s' := Run(cfg, s, inputs);
            && Ready(s') && s'.errors == s.errors + n
            && UnrecognizedAnswers(s'.trace) == UnrecognizedAnswers(s.trace)
  {
    if n == 0 {
      inputs := [];
    } else {
      var before := MoreRefused(cfg, s, arg, n - 1);
      RunSnoc(cfg, s, before, Ask("RCPT TO:" + arg));
      RefusedTurn(cfg, Run(cfg, s, before), arg);
      inputs := before + [Ask("RCPT TO:" + arg)];
    }
  }

  /** The unrecognized command that reaches the limit. */
  lemma {:induction false} KilledTurn(cfg: Config, s: Session)
    requires Ready(s) && s.errors + 1 >= cfg.maxUnrecognized
    ensures var s' := Turn(cfg, s, Ask("!"));
            s'.killed && UnrecognizedAnswers(s'.trace) == UnrecognizedAnswers(s.trace) + 1
  {
    UnknownAsked(cfg);
    AskTurn(cfg, s, "!", Plain(Unrecognized));
    KilledEffect(cfg, s, "!", Ask("!"));
  }

  /**
   Whatever `MaxUnrecognizedCommands` is, some run is killed at its first
   unrecognized command: refused recipients before it count as well.
   */
  lemma {:induction false} FirstUnrecognizedKills(cfg: Config, peer: string, arg: string) returns (inputs: seq<Input>)
    requires cfg.parseAddress(TrimSpace(arg)).None?
    ensures var s := Run(cfg, Open(cfg, peer, true), inputs);
            s.killed && UnrecognizedAnswers(s.trace) == 1
  {
    Greeted(cfg, peer);
    var start, hello := Open(cfg, peer, true), [Ask("")];
    UnrecognizedStep([], Said(Greeting));
    assert [] + [Said(Greeting)] == [Said(Greeting)];
    var refused := MoreRefused(cfg, Run(cfg, start, hello), arg,
                               if cfg.maxUnrecognized > 0 then cfg.maxUnrecognized else 0);
    RunTwice(cfg, start, hello, refused);
    KilledTurn(cfg, Run(cfg, start, hello + refused));
    RunSnoc(cfg, start, hello + refused, Ask("!"));
    inputs := hello + refused + [Ask("!")];
  }
}
