/** The grammar of the command language, told by what may be written rather than by how it is
    parsed, and the proof that the parser reads exactly it. */
module CommandGrammar {
  import opened Clock
  import opened Positions
  import opened Text
  import opened Tokenising
  import opened NodeConfigs
  import opened Commands

  /** The text is some space, an optional sign and digits, for a number an int can hold. */
  ghost predicate Reads(text: string, n: int) {
    -0x8000_0000 <= n <= 0x7FFF_FFFF &&
    exists space: string, sign: string, digits: string ::
      text == space + sign + digits && All(space, IsSpace) && SignedDigits(sign, digits) &&
      n == SignedValue(sign, digits)
  }

  ghost predicate ReadsInt(text: string) {
    exists n :: Reads(text, n)
  }

  lemma ParseIntIsReads(text: string, n: int)
    ensures ParseInt(text) == Some(n) <==> Reads(text, n)
  {
    hide ParseInt, SignedDigits, SignedValue, All;
    if ParseInt(text) == Some(n) {
      var space, sign, digits := ParseIntAcceptsOnlyParts(text);
    }
    forall space: string, sign: string, digits: string |
      text == space + sign + digits && All(space, IsSpace) && SignedDigits(sign, digits) &&
      n == SignedValue(sign, digits) && -0x8000_0000 <= n <= 0x7FFF_FFFF
      ensures ParseInt(text) == Some(n)
    {
      ParseIntOfParts(space, sign, digits);
    }
  }

  lemma ParseIntIsReadsInt(text: string)
    ensures ParseInt(text).Some? <==> ReadsInt(text)
  {
    hide ParseInt, Reads;
    if ParseInt(text).Some? {
      ParseIntIsReads(text, ParseInt(text).value);
    }
    forall n | Reads(text, n)
      ensures ParseInt(text).Some?
    {
      ParseIntIsReads(text, n);
    }
  }

  /** A number of milliseconds, taken modulo 2^32 when negative. */
  ghost predicate ReadsDuration(text: string, duration: Duration) {
    exists ms :: Reads(text, ms) && duration == if ms < 0 then ms + 0x1_0000_0000 else ms
  }

  lemma ParseIntIsReadsDuration(text: string, duration: Duration)
    ensures ReadsDuration(text, duration) <==> ParseInt(text).Some? && Wrap(ParseInt(text).value) == duration
  {
    hide ParseInt, Reads;
    if ParseInt(text).Some? {
      ParseIntIsReads(text, ParseInt(text).value);
    }
    forall ms | Reads(text, ms)
      ensures ParseInt(text) == Some(ms)
    {
      ParseIntIsReads(text, ms);
    }
  }

  // ----- The grammar ---------------------------------------------------------------------------

  /** The five words of a turnout line, each in its place. */
  predicate TurnoutShaped(tokens: seq<string>) {
    |tokens| == 12 && tokens[0] == "turnout" && tokens[2] == "pin" && tokens[4] == "fb" &&
    tokens[6] == "orientation" && tokens[8] == "settle" && tokens[10] == "timeout"
  }

  ghost predicate SaysTurnout(tokens: seq<string>, i: int, config: TurnoutConfig) {
    TurnoutShaped(tokens) && 0 <= i < 8 && config.id == i + 1 && Reads(tokens[1], i + 1) &&
    Reads(tokens[3], config.outputPin) && Reads(tokens[5], config.feedbackPin) &&
    (tokens[7] == "normal" || tokens[7] == "inverted") &&
    (config.orientation.inverted <==> tokens[7] == "inverted") &&
    ReadsDuration(tokens[9], config.settleDuration) && ReadsDuration(tokens[11], config.movementTimeout)
  }

  /** These tokens are a way to write this command. */
  ghost predicate Says(tokens: seq<string>, command: Command) {
    match command
    case SetId(id) => |tokens| == 2 && tokens[0] == "id" && Reads(tokens[1], id)
    case SetWifi(ssid, password) => tokens == ["wifi", ssid, password]
    case SetBroker(host, port) =>
      |tokens| == 3 && tokens[0] == "broker" && tokens[1] == host && Reads(tokens[2], port)
    case SetTurnout(i, config) => SaysTurnout(tokens, i, config)
    case SetLocoNetAddress(i, address) =>
      |tokens| == 3 && tokens[0] == "address" && 0 <= i < 8 && Reads(tokens[1], i + 1) && Reads(tokens[2], address)
    case Show => tokens == ["show"]
    case Save => tokens == ["save"]
    case Reboot => tokens == ["reboot"]
    case Invalid(_) => false
  }

  // ----- The parser reads exactly the grammar -----------------------------------------------------

  /** Which command the first token opens, with how many tokens; all else opens none. */
  lemma KeywordOpens(tokens: seq<string>)
    ensures var command := ParseTokens(tokens);
            (command.SetId? ==> |tokens| == 2 && tokens[0] == "id") &&
            (command.SetWifi? ==> |tokens| == 3 && tokens[0] == "wifi") &&
            (command.SetBroker? ==> |tokens| == 3 && tokens[0] == "broker") &&
            (command.SetTurnout? ==> |tokens| == 12 && tokens[0] == "turnout") &&
            (command.SetLocoNetAddress? ==> |tokens| == 3 && tokens[0] == "address") &&
            (command.Show? ==> tokens == ["show"]) && (command.Save? ==> tokens == ["save"]) &&
            (command.Reboot? ==> tokens == ["reboot"])
  {
    hide ParseInt;
  }

  lemma TurnoutSaid(tokens: seq<string>, i: int, config: TurnoutConfig)
    requires |tokens| == 12 && tokens[0] == "turnout"
    ensures ParseSetTurnout(tokens) == SetTurnout(i, config) <==> SaysTurnout(tokens, i, config)
  {
    hide ParseInt, Reads, ReadsDuration;
    ParseIntIsReads(tokens[1], i + 1);
    ParseIntIsReads(tokens[3], config.outputPin);
    ParseIntIsReads(tokens[5], config.feedbackPin);
    ParseIntIsReadsDuration(tokens[9], config.settleDuration);
    ParseIntIsReadsDuration(tokens[11], config.movementTimeout);
  }

  lemma AddressSaid(tokens: seq<string>, i: int, address: int32)
    requires |tokens| == 3 && tokens[0] == "address"
    ensures ParseSetLocoNetAddress(tokens) == SetLocoNetAddress(i, address) <==>
            0 <= i < 8 && Reads(tokens[1], i + 1) && Reads(tokens[2], address)
  {
    hide ParseInt, Reads;
    ParseIntIsReads(tokens[1], i + 1);
    ParseIntIsReads(tokens[2], address);
  }

  /** Main result: a sequence of tokens is parsed as a command exactly when it is a way to write
      that command. */
  lemma ParserReadsExactlyTheGrammar(tokens: seq<string>, command: Command)
    requires !command.Invalid?
    ensures ParseTokens(tokens) == command <==> Says(tokens, command)
  {
    hide ParseTokens, ParseInt, Reads, SaysTurnout, ParseSetTurnout, ParseSetLocoNetAddress;
    KeywordOpens(tokens);
    if command.SetTurnout? {
      ShapedIsTurnout(tokens, command.index, command.config);
    }
    if tokens != [] {
      KeywordDecides(tokens);
      match command
      case SetId(id) =>
        if |tokens| == 2 {
          ParseIntIsReads(tokens[1], id);
        }
      case SetBroker(host, port) =>
        if |tokens| == 3 {
          ParseIntIsReads(tokens[2], port);
        }
      case SetTurnout(i, config) =>
        if |tokens| == 12 && tokens[0] == "turnout" {
          TurnoutSaid(tokens, i, config);
        }
      case SetLocoNetAddress(i, address) =>
        if |tokens| == 3 && tokens[0] == "address" {
          AddressSaid(tokens, i, address);
        }
      case SetWifi(ssid, password) => assert |tokens| == 3 ==> tokens == [tokens[0], tokens[1], tokens[2]];
      case _ =>
    }
  }

  lemma ShapedIsTurnout(tokens: seq<string>, i: int, config: TurnoutConfig)
    ensures SaysTurnout(tokens, i, config) ==> |tokens| == 12 && tokens[0] == "turnout"
  {
  }

  /** So tokens that are no way to write any command, and only those, are refused; no tokens are a
      way to write two. */
  lemma RefusedExactlyOutsideTheGrammar(tokens: seq<string>)
    ensures ParseTokens(tokens).Invalid? <==> forall command: Command :: !Says(tokens, command)
    ensures forall c: Command, d: Command :: Says(tokens, c) && Says(tokens, d) ==> c == d
  {
    hide ParseTokens, Says;
    forall command: Command | !command.Invalid?
      ensures ParseTokens(tokens) == command <==> Says(tokens, command)
    {
      ParserReadsExactlyTheGrammar(tokens, command);
    }
    InvalidIsNeverSaid(tokens);
  }

  lemma InvalidIsNeverSaid(tokens: seq<string>)
    ensures forall command: Command :: Says(tokens, command) ==> !command.Invalid?
  {
  }

  /** A line is a command exactly when its tokens are. */
  lemma LineIsReadByTheGrammar(line: string, command: Command)
    requires !command.Invalid?
    ensures Parsed(line) == command <==> Says(Tokens(line), command)
  {
    hide Tokens, ParseTokens, Says;
    ParserReadsExactlyTheGrammar(Tokens(line), command);
  }

  // ----- Why a line is refused ------------------------------------------------------------------------

  predicate Opens(tokens: seq<string>, keyword: string, count: nat) {
    |tokens| == count > 0 && tokens[0] == keyword
  }

  predicate OpensAny(tokens: seq<string>)
    requires tokens != []
  {
    Opens(tokens, "id", 2) || Opens(tokens, "wifi", 3) || Opens(tokens, "broker", 3) || Opens(tokens, "turnout", 12) ||
    Opens(tokens, "address", 3) || Opens(tokens, "show", 1) || Opens(tokens, "save", 1) || Opens(tokens, "reboot", 1)
  }

  ghost predicate TurnoutIntegers(tokens: seq<string>)
    requires |tokens| == 12
  {
    ReadsInt(tokens[1]) && ReadsInt(tokens[3]) && ReadsInt(tokens[5]) && ReadsInt(tokens[9]) && ReadsInt(tokens[11])
  }

  ghost predicate NamesChannel(text: string) {
    exists n :: 1 <= n <= 8 && Reads(text, n)
  }

  /** The text's first fault, in the order the parser looks for them. */
  ghost predicate FaultIs(tokens: seq<string>, reason: InvalidReason) {
    match reason
    case EmptyCommand => tokens == []
    case Unrecognized => tokens != [] && !OpensAny(tokens)
    case BadId => Opens(tokens, "id", 2) && !ReadsInt(tokens[1])
    case BadPort => Opens(tokens, "broker", 3) && !ReadsInt(tokens[2])
    case BadAddressIntegers => Opens(tokens, "address", 3) && !(ReadsInt(tokens[1]) && ReadsInt(tokens[2]))
    case BadAddressNumber =>
      Opens(tokens, "address", 3) && ReadsInt(tokens[1]) && ReadsInt(tokens[2]) && !NamesChannel(tokens[1])
    case MalformedTurnout => Opens(tokens, "turnout", 12) && !TurnoutShaped(tokens)
    case BadTurnoutIntegers => TurnoutShaped(tokens) && !TurnoutIntegers(tokens)
    case BadTurnoutNumber => TurnoutShaped(tokens) && TurnoutIntegers(tokens) && !NamesChannel(tokens[1])
    case BadOrientation =>
      TurnoutShaped(tokens) && TurnoutIntegers(tokens) && NamesChannel(tokens[1]) &&
      tokens[7] != "normal" && tokens[7] != "inverted"
  }

  lemma NamesChannelRead(text: string)
    ensures NamesChannel(text) <==> ParseInt(text).Some? && 1 <= ParseInt(text).value <= 8
  {
    hide ParseInt, Reads;
    if ParseInt(text).Some? {
      ParseIntIsReads(text, ParseInt(text).value);
    }
    forall n | Reads(text, n)
      ensures ParseInt(text) == Some(n)
    {
      ParseIntIsReads(text, n);
    }
  }

  lemma TurnoutFault(tokens: seq<string>)
    requires Opens(tokens, "turnout", 12)
    ensures ParseSetTurnout(tokens).Invalid? ==> FaultIs(tokens, ParseSetTurnout(tokens).reason)
  {
    hide ParseInt, ReadsInt, NamesChannel, OpensAny;
    ParseIntIsReadsInt(tokens[1]);
    ParseIntIsReadsInt(tokens[3]);
    ParseIntIsReadsInt(tokens[5]);
    ParseIntIsReadsInt(tokens[9]);
    ParseIntIsReadsInt(tokens[11]);
    NamesChannelRead(tokens[1]);
  }

  lemma AddressFault(tokens: seq<string>)
    requires Opens(tokens, "address", 3)
    ensures ParseSetLocoNetAddress(tokens).Invalid? ==> FaultIs(tokens, ParseSetLocoNetAddress(tokens).reason)
  {
    hide ParseInt, ReadsInt, NamesChannel, OpensAny;
    ParseIntIsReadsInt(tokens[1]);
    ParseIntIsReadsInt(tokens[2]);
    NamesChannelRead(tokens[1]);
  }

  lemma NumberFault(tokens: seq<string>)
    ensures Opens(tokens, "id", 2) && ParseSetId(tokens).Invalid? ==> FaultIs(tokens, ParseSetId(tokens).reason)
    ensures Opens(tokens, "broker", 3) && ParseSetBroker(tokens).Invalid? ==>
            FaultIs(tokens, ParseSetBroker(tokens).reason)
  {
    hide ParseInt, ReadsInt, NamesChannel, OpensAny;
    if |tokens| >= 2 {
      ParseIntIsReadsInt(tokens[1]);
    }
    if |tokens| >= 3 {
      ParseIntIsReadsInt(tokens[2]);
    }
  }

  lemma UnrecognizedOpensNothing(tokens: seq<string>)
    requires tokens != [] && !OpensAny(tokens)
    ensures ParseTokens(tokens).Invalid? ==> FaultIs(tokens, ParseTokens(tokens).reason)
  {
    hide ParseInt, ReadsInt, NamesChannel, ParseSetTurnout, ParseSetLocoNetAddress, ParseSetId, ParseSetBroker;
  }

  /** A refusal names the fault. */
  lemma RefusalNamesTheFault(tokens: seq<string>)
    requires ParseTokens(tokens).Invalid?
    ensures FaultIs(tokens, ParseTokens(tokens).reason)
  {
    hide FaultIs, ParseTokens, ParseSetTurnout, ParseSetLocoNetAddress, ParseSetId, ParseSetBroker;
    NoTokensIsEmpty();
    if tokens != [] {
      KeywordDecides(tokens);
      if Opens(tokens, "turnout", 12) {
        TurnoutFault(tokens);
      } else if Opens(tokens, "address", 3) {
        AddressFault(tokens);
      } else if Opens(tokens, "id", 2) || Opens(tokens, "broker", 3) {
        NumberFault(tokens);
      } else {
        UnrecognizedOpensNothing(tokens);
      }
    }
  }

  lemma NoTokensIsEmpty()
    ensures ParseTokens([]) == Invalid(EmptyCommand) && FaultIs([], EmptyCommand)
  {
  }
}
