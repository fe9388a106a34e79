/** What each command line asks for, verb by verb, in any case of letters and with any rest. */
module CommandLines {
  import opened Text
  import opened Strings
  import opened Session

  // ----- verbs

  /** `line` is `verb`, written in upper case here, in any case of letters, and then `rest`. */
  predicate Spells(line: string, verb: string, rest: string) {
    && |line| == |verb| + |rest| && line[|verb|..] == rest
    && forall i :: 0 <= i < |verb| ==>
         line[i] == verb[i] || ('A' <= verb[i] <= 'Z' && line[i] as int == verb[i] as int + 32)
  }

  /** The line starts with the verb. */
  ghost predicate StartsWith(line: string, verb: string) {
    exists rest :: Spells(line, verb, rest)
  }

  predicate NoLowerCase(verb: string) {
    forall i :: 0 <= i < |verb| ==> !('a' <= verb[i] <= 'z')
  }

  lemma {:induction false} SpelledMatches(line: string, verb: string)
    requires NoLowerCase(verb)
    ensures Matches(verb, line) <==> StartsWith(line, verb)
  {
    if Matches(verb, line) {
      assert Spells(line, verb, line[|verb|..]);
    }
  }

  lemma {:induction false} ContentIs(line: string, verb: string, rest: string)
    requires Spells(line, verb, rest)
    ensures Content(verb, line) == TrimSpace(rest)
  {
  }

  /** The switch over the commands. */
  function Switch(cfg: Config, line: string): Command {
    if Matches("HELO", line) then Helo
    else if Matches("EHLO", line) then Ehlo
    else if Matches("HELP", line) then Help
    else if Matches("XCLIENT", line) && cfg.xclientOn then XClient
    else if Matches("PROXY ", line) && cfg.proxyOn then Proxy
    else if Matches("MAIL FROM:", line) then Mail
    else if Matches("RCPT TO:", line) then Rcpt
    else LaterSwitch(cfg, line)
  }

  function LaterSwitch(cfg: Config, line: string): Command {
    if Matches("RSET", line) then Rset
    else if Matches("VRFY", line) then Vrfy
    else if Matches("NOOP", line) then Noop
    else if Matches("QUIT", line) then Quit
    else if Matches("DATA", line) then Data
    else if Matches("STARTTLS", line) then StartTLS
    else Unrecognized
  }

  lemma {:induction false} CaseOf(cfg: Config, line: string, n: nat, verb: string, c: Command)
    requires n < |CASES| && CASES[n] == (verb, c)
    ensures FirstCase(cfg, CASES[n..], line)
         == if Matches(verb, line) && IsOn(cfg, c) then c else FirstCase(cfg, CASES[n + 1..], line)
  {
    assert CASES[n..][0] == CASES[n] && CASES[n..][1..] == CASES[n + 1..];
  }

  lemma {:induction false} FirstTable()
    ensures |CASES| == 13 && CASES[0] == ("HELO", Helo) && CASES[1] == ("EHLO", Ehlo) && CASES[2] == ("HELP", Help)
  {
  }

  lemma {:induction false} MiddleTable()
    ensures |CASES| == 13 && CASES[3] == ("XCLIENT", XClient) && CASES[4] == ("PROXY ", Proxy)
    ensures CASES[5] == ("MAIL FROM:", Mail) && CASES[6] == ("RCPT TO:", Rcpt)
  {
  }

  lemma {:induction false} LaterTable()
    ensures |CASES| == 13 && CASES[7] == ("RSET", Rset) && CASES[8] == ("VRFY", Vrfy) && CASES[9] == ("NOOP", Noop)
  {
  }

  lemma {:induction false} LastTable()
    ensures |CASES| == 13 && CASES[10] == ("QUIT", Quit) && CASES[11] == ("DATA", Data)
    ensures CASES[12] == ("STARTTLS", StartTLS)
  {
  }

  lemma {:induction false} LastCases(cfg: Config, line: string)
    ensures |CASES| == 13 && FirstCase(cfg, CASES[10..], line)
         == if Matches("QUIT", line) then Quit
            else if Matches("DATA", line) then Data
            else if Matches("STARTTLS", line) then StartTLS
            else Unrecognized
  {
    LastTable();
    CaseOf(cfg, line, 10, "QUIT", Quit);
    CaseOf(cfg, line, 11, "DATA", Data);
    CaseOf(cfg, line, 12, "STARTTLS", StartTLS);
  }

  lemma {:induction false} LaterCases(cfg: Config, line: string)
    ensures FirstCase(cfg, CASES[7..], line) == LaterSwitch(cfg, line)
  {
    LaterTable();
    CaseOf(cfg, line, 7, "RSET", Rset);
    CaseOf(cfg, line, 8, "VRFY", Vrfy);
    CaseOf(cfg, line, 9, "NOOP", Noop);
    LastCases(cfg, line);
  }

  lemma {:induction false} MiddleCases(cfg: Config, line: string)
    ensures FirstCase(cfg, CASES[3..], line)
         == if Matches("XCLIENT", line) && cfg.xclientOn then XClient
            else if Matches("PROXY ", line) && cfg.proxyOn then Proxy
            else if Matches("MAIL FROM:", line) then Mail
            else if Matches("RCPT TO:", line) then Rcpt
            else LaterSwitch(cfg, line)
  {
    MiddleTable();
    CaseOf(cfg, line, 3, "XCLIENT", XClient);
    CaseOf(cfg, line, 4, "PROXY ", Proxy);
    CaseOf(cfg, line, 5, "MAIL FROM:", Mail);
    CaseOf(cfg, line, 6, "RCPT TO:", Rcpt);
    LaterCases(cfg, line);
  }

  lemma {:induction false} SwitchIs(cfg: Config, line: string)
    ensures Classify(cfg, line) == Switch(cfg, line)
  {
    FirstTable();
    assert CASES[0..] == CASES;
    CaseOf(cfg, line, 0, "HELO", Helo);
    CaseOf(cfg, line, 1, "EHLO", Ehlo);
    CaseOf(cfg, line, 2, "HELP", Help);
    MiddleCases(cfg, line);
  }

  /** A line does not start with two verbs that differ in a letter. */
  lemma {:induction false} OnlyOne(line: string, verb: string, other: string, i: nat)
    requires Matches(verb, line) && i < |verb| && i < |other| && verb[i] != other[i]
    ensures !Matches(other, line)
  {
  }

  lemma {:induction false} VerbIs(line: string, verb: string, rest: string)
    requires Spells(line, verb, rest) && NoLowerCase(verb) && verb != ""
    ensures Matches(verb, line) && Content(verb, line) == TrimSpace(rest)
    ensures line != "" && UpperChar(line[0]) == verb[0]
  {
    SpelledMatches(line, verb);
    ContentIs(line, verb, rest);
  }

  lemma {:induction false} OtherLetter(line: string, verb: string)
    requires verb != "" && line != "" && UpperChar(line[0]) != verb[0]
    ensures !Matches(verb, line)
  {
  }

  // ----- one law for each verb

  lemma {:induction false} HeloLine(cfg: Config, line: string, rest: string)
    requires Spells(line, "HELO", rest)
    ensures ParseRequest(cfg, line) == HeloRequest(TrimSpace(rest))
  {
    VerbIs(line, "HELO", rest);
    SwitchIs(cfg, line);
  }

  lemma {:induction false} EhloLine(cfg: Config, line: string, rest: string)
    requires Spells(line, "EHLO", rest)
    ensures ParseRequest(cfg, line) == EhloRequest(TrimSpace(rest))
  {
    VerbIs(line, "EHLO", rest);
    OtherLetter(line, "HELO");
    SwitchIs(cfg, line);
  }

  lemma {:induction false} HelpLine(cfg: Config, line: string, rest: string)
    requires Spells(line, "HELP", rest)
    ensures ParseRequest(cfg, line) == Plain(Help)
  {
    VerbIs(line, "HELP", rest);
    OnlyOne(line, "HELP", "HELO", 3);
    OtherLetter(line, "EHLO");
    SwitchIs(cfg, line);
  }

  lemma {:induction false} NotHello(line: string)
    requires line != "" && UpperChar(line[0]) != 'H' && UpperChar(line[0]) != 'E'
    ensures !Matches("HELO", line) && !Matches("EHLO", line) && !Matches("HELP", line)
  {
  }

  lemma {:induction false} NotMiddle(line: string)
    requires line != "" && UpperChar(line[0]) != 'X' && UpperChar(line[0]) != 'P' && UpperChar(line[0]) != 'M'
    ensures !Matches("XCLIENT", line) && !Matches("PROXY ", line) && !Matches("MAIL FROM:", line)
  {
  }

  lemma {:induction false} XClientLine(cfg: Config, line: string, rest: string)
    requires Spells(line, "XCLIENT", rest)
    ensures ParseRequest(cfg, line)
         == if cfg.xclientOn then XClientRequest(Fields(TrimSpace(rest), IsSpace)) else Plain(Unrecognized)
  {
    VerbIs(line, "XCLIENT", rest);
    NotHello(line);
    NotAnyOf(cfg, line);
    SwitchIs(cfg, line);
  }

  lemma {:induction false} ProxyLine(cfg: Config, line: string, rest: string)
    requires Spells(line, "PROXY ", rest)
    ensures ParseRequest(cfg, line)
         == if cfg.proxyOn then ProxyRequest(Fields(TrimSpace(rest), IsSpace)) else Plain(Unrecognized)
  {
    VerbIs(line, "PROXY ", rest);
    NotHello(line);
    OtherLetter(line, "XCLIENT");
    NotAnyOf(cfg, line);
    SwitchIs(cfg, line);
  }

  lemma {:induction false} NotAnyOf(cfg: Config, line: string)
    requires line != "" && (UpperChar(line[0]) == 'X' || UpperChar(line[0]) == 'P')
    ensures !Matches("MAIL FROM:", line) && !Matches("RCPT TO:", line)
    ensures UpperChar(line[0]) == 'X' ==> !Matches("PROXY ", line)
    ensures LaterSwitch(cfg, line) == Unrecognized
  {
  }

  /** The address ends at the first blank; SMTPUTF8 counts when it is all that follows. */
  lemma {:induction false} MailLine(cfg: Config, line: string, rest: string, address: string, param: string)
    requires Spells(line, "MAIL FROM:", rest) && ' ' !in address
    ensures TrimSpace(rest) == address ==> ParseRequest(cfg, line) == MailRequest(cfg.parseAddress(address), false)
    ensures TrimSpace(rest) == address + " " + param ==>
              ParseRequest(cfg, line) == MailRequest(cfg.parseAddress(address), param == "SMTPUTF8")
  {
    IsMail(cfg, line, rest);
    MailArguments(cfg, TrimSpace(rest), address, param);
  }

  lemma {:induction false} IsMail(cfg: Config, line: string, rest: string)
    requires Spells(line, "MAIL FROM:", rest)
    ensures ParseRequest(cfg, line) == MailOf(cfg, TrimSpace(rest))
  {
    VerbIs(line, "MAIL FROM:", rest);
    NotHello(line);
    OtherLetter(line, "XCLIENT");
    OtherLetter(line, "PROXY ");
    SwitchIs(cfg, line);
  }

  function MailOf(cfg: Config, content: string): Request {
    var arg := Cut(content, ' ');
    MailRequest(cfg.parseAddress(arg.before), arg.after == "SMTPUTF8")
  }

  lemma {:induction false} MailArguments(cfg: Config, content: string, address: string, param: string)
    requires ' ' !in address
    ensures content == address ==> MailOf(cfg, content) == MailRequest(cfg.parseAddress(address), false)
    ensures content == address + " " + param ==>
              MailOf(cfg, content) == MailRequest(cfg.parseAddress(address), param == "SMTPUTF8")
  {
    IndexOfAbsent(address, ' ');
    CutAt(address, ' ', param);
  }

  lemma {:induction false} RcptLine(cfg: Config, line: string, rest: string)
    requires Spells(line, "RCPT TO:", rest)
    ensures ParseRequest(cfg, line) == RcptRequest(cfg.parseAddress(TrimSpace(rest)))
  {
    VerbIs(line, "RCPT TO:", rest);
    NotHello(line);
    NotMiddle(line);
    SwitchIs(cfg, line);
  }

  lemma {:induction false} RsetLine(cfg: Config, line: string, rest: string)
    requires Spells(line, "RSET", rest)
    ensures ParseRequest(cfg, line) == Plain(Rset)
  {
    VerbIs(line, "RSET", rest);
    NotHello(line);
    NotMiddle(line);
    OnlyOne(line, "RSET", "RCPT TO:", 1);
    SwitchIs(cfg, line);
  }

  /** None of the verbs of the first lines of the switch. */
  lemma {:induction false} Later(cfg: Config, line: string)
    requires line != "" && var c := UpperChar(line[0]); c == 'V' || c == 'N' || c == 'Q' || c == 'D' || c == 'S'
    ensures Classify(cfg, line) == LaterSwitch(cfg, line) && !Matches("RSET", line)
  {
    NotHello(line);
    NotMiddle(line);
    OtherLetter(line, "RCPT TO:");
    OtherLetter(line, "RSET");
    SwitchIs(cfg, line);
  }

  lemma {:induction false} VrfyLine(cfg: Config, line: string, rest: string)
    requires Spells(line, "VRFY", rest)
    ensures ParseRequest(cfg, line) == Plain(Vrfy)
  {
    VerbIs(line, "VRFY", rest);
    Later(cfg, line);
  }

  lemma {:induction false} NoopLine(cfg: Config, line: string, rest: string)
    requires Spells(line, "NOOP", rest)
    ensures ParseRequest(cfg, line) == Plain(Noop)
  {
    VerbIs(line, "NOOP", rest);
    Later(cfg, line);
    OtherLetter(line, "VRFY");
  }

  lemma {:induction false} QuitLine(cfg: Config, line: string, rest: string)
    requires Spells(line, "QUIT", rest)
    ensures ParseRequest(cfg, line) == Plain(Quit)
  {
    VerbIs(line, "QUIT", rest);
    Later(cfg, line);
    OtherLetter(line, "VRFY");
    OtherLetter(line, "NOOP");
  }

  lemma {:induction false} DataLine(cfg: Config, line: string, rest: string)
    requires Spells(line, "DATA", rest)
    ensures ParseRequest(cfg, line) == Plain(Data)
  {
    VerbIs(line, "DATA", rest);
    Later(cfg, line);
    OtherLetter(line, "VRFY");
    OtherLetter(line, "NOOP");
    OtherLetter(line, "QUIT");
  }

  lemma {:induction false} StartTLSLine(cfg: Config, line: string, rest: string)
    requires Spells(line, "STARTTLS", rest)
    ensures ParseRequest(cfg, line) == Plain(StartTLS)
  {
    VerbIs(line, "STARTTLS", rest);
    Later(cfg, line);
    OtherLetter(line, "VRFY");
    OtherLetter(line, "NOOP");
    OtherLetter(line, "QUIT");
    OtherLetter(line, "DATA");
  }

  /** The line starts with one of the verbs, in any case of letters. */
  ghost predicate StartsWithVerb(cfg: Config, line: string) {
    || StartsWith(line, "HELO") || StartsWith(line, "EHLO") || StartsWith(line, "HELP")
    || (cfg.xclientOn && StartsWith(line, "XCLIENT")) || (cfg.proxyOn && StartsWith(line, "PROXY "))
    || StartsWith(line, "MAIL FROM:") || StartsWith(line, "RCPT TO:")
    || StartsWithPlainVerb(line)
  }

  ghost predicate StartsWithPlainVerb(line: string) {
    || StartsWith(line, "RSET") || StartsWith(line, "VRFY") || StartsWith(line, "NOOP") || StartsWith(line, "QUIT")
    || StartsWith(line, "DATA") || StartsWith(line, "STARTTLS")
  }

  lemma {:induction false} PlainVerbs(cfg: Config, line: string)
    ensures LaterSwitch(cfg, line) == Unrecognized <==> !StartsWithPlainVerb(line)
  {
    SpelledMatches(line, "RSET");
    SpelledMatches(line, "VRFY");
    SpelledMatches(line, "NOOP");
    SpelledMatches(line, "QUIT");
    SpelledMatches(line, "DATA");
    SpelledMatches(line, "STARTTLS");
  }

  lemma {:induction false} HelloVerbs(line: string)
    ensures Matches("HELO", line) <==> StartsWith(line, "HELO")
    ensures Matches("EHLO", line) <==> StartsWith(line, "EHLO")
    ensures Matches("HELP", line) <==> StartsWith(line, "HELP")
  {
    SpelledMatches(line, "HELO");
    SpelledMatches(line, "EHLO");
    SpelledMatches(line, "HELP");
  }

  lemma {:induction false} MiddleVerbs(line: string)
    ensures Matches("XCLIENT", line) <==> StartsWith(line, "XCLIENT")
    ensures Matches("PROXY ", line) <==> StartsWith(line, "PROXY ")
    ensures Matches("MAIL FROM:", line) <==> StartsWith(line, "MAIL FROM:")
    ensures Matches("RCPT TO:", line) <==> StartsWith(line, "RCPT TO:")
  {
    SpelledMatches(line, "XCLIENT");
    SpelledMatches(line, "PROXY ");
    SpelledMatches(line, "MAIL FROM:");
    SpelledMatches(line, "RCPT TO:");
  }

  /** Every other line, and only such a line, is unrecognized. */
  lemma {:induction false} UnrecognizedExactly(cfg: Config, line: string)
    ensures ParseRequest(cfg, line) == Plain(Unrecognized) <==> !StartsWithVerb(cfg, line)
  {
    SwitchIs(cfg, line);
    HelloVerbs(line);
    MiddleVerbs(line);
    PlainVerbs(cfg, line);
  }
}
