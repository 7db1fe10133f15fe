/** CommandLineParser.h and ParsedCommand.h: one line of text to one commissioning command. */
module Commands {
  import opened Clock
  import opened Positions
  import opened Text
  import opened Tokenising
  import opened NodeConfigs

  datatype InvalidReason =
    | EmptyCommand
    | Unrecognized
    | BadId
    | BadPort
    | MalformedTurnout
    | BadTurnoutIntegers
    | BadTurnoutNumber
    | BadOrientation
    | BadAddressIntegers
    | BadAddressNumber

  datatype Command =
    | SetId(id: int32)
    | SetWifi(ssid: string, password: string)
    | SetBroker(host: string, port: int32)
    | SetTurnout(index: int, config: TurnoutConfig)
    | SetLocoNetAddress(index: int, address: int32)
    | Show
    | Save
    | Reboot
    | Invalid(reason: InvalidReason)
  {
    /** Channel indices name one of the eight channels, and a channel keeps its own number. */
    predicate WellFormed() {
      (SetTurnout? ==> 0 <= index < CHANNELS && config.id == index + 1) &&
      (SetLocoNetAddress? ==> 0 <= index < CHANNELS)
    }
  }

  function ParseSetId(tokens: seq<string>): Command
    requires |tokens| == 2
  {
    match ParseInt(tokens[1])
    case Some(value) => SetId(value)
    case None => Invalid(BadId)
  }

  function ParseSetBroker(tokens: seq<string>): Command
    requires |tokens| == 3
  {
    match ParseInt(tokens[2])
    case Some(port) => SetBroker(tokens[1], port)
    case None => Invalid(BadPort)
  }

  function ParseSetLocoNetAddress(tokens: seq<string>): (command: Command)
    requires |tokens| == 3
    ensures command.WellFormed()
  {
    var n, address := ParseInt(tokens[1]), ParseInt(tokens[2]);
    if n.None? || address.None? then Invalid(BadAddressIntegers)
    else if n.value < 1 || n.value > 8 then Invalid(BadAddressNumber)
    else SetLocoNetAddress(n.value - 1, address.value)
  }

  /** turnout n pin gpio fb gpio orientation normal|inverted settle ms timeout ms; the two
      durations are ints converted to uint32_t. */
  function ParseSetTurnout(tokens: seq<string>): (command: Command)
    requires |tokens| == 12
    ensures command.WellFormed()
  {
    if tokens[2] != "pin" || tokens[4] != "fb" || tokens[6] != "orientation" || tokens[8] != "settle" ||
       tokens[10] != "timeout" then Invalid(MalformedTurnout)
    else
      var n, outputPin, feedbackPin := ParseInt(tokens[1]), ParseInt(tokens[3]), ParseInt(tokens[5]);
      var settleMs, timeoutMs := ParseInt(tokens[9]), ParseInt(tokens[11]);
      if n.None? || outputPin.None? || feedbackPin.None? || settleMs.None? || timeoutMs.None? then
        Invalid(BadTurnoutIntegers)
      else if n.value < 1 || n.value > 8 then Invalid(BadTurnoutNumber)
      else if tokens[7] != "inverted" && tokens[7] != "normal" then Invalid(BadOrientation)
      else SetTurnout(n.value - 1,
                      TurnoutConfig(n.value, outputPin.value, feedbackPin.value, Orientation(tokens[7] == "inverted"),
                                    Wrap(settleMs.value), Wrap(timeoutMs.value)))
  }

  function ParseTokens(tokens: seq<string>): (command: Command)
    ensures command.WellFormed()
  {
    if tokens == [] then Invalid(EmptyCommand)
    else if tokens[0] == "id" && |tokens| == 2 then ParseSetId(tokens)
    else if tokens[0] == "wifi" && |tokens| == 3 then SetWifi(tokens[1], tokens[2])
    else if tokens[0] == "broker" && |tokens| == 3 then ParseSetBroker(tokens)
    else if tokens[0] == "turnout" && |tokens| == 12 then ParseSetTurnout(tokens)
    else if tokens[0] == "address" && |tokens| == 3 then ParseSetLocoNetAddress(tokens)
    else if tokens == ["show"] then Show
    else if tokens == ["save"] then Save
    else if tokens == ["reboot"] then Reboot
    else Invalid(Unrecognized)
  }

  function Parsed(line: string): (command: Command)
    ensures command.WellFormed()
  {
    ParseTokens(Tokens(line))
  }

  method Parse(line: string) returns (command: Command)
    ensures command == Parsed(line) && command.WellFormed()
  {
    var tokens := Tokenize(line);
    command := ParseTokens(tokens);
  }

  // ----- Writing commands -------------------------------------------------------------------------

  /** The words of a line for each command that has one. */
  function WordsOf(command: Command): seq<Word>
    requires !command.Invalid?
  {
    match command
    case SetId(id) => [Bare("id"), Bare(IntText(id))]
    case SetWifi(ssid, password) => [Bare("wifi"), Quoted(ssid), Quoted(password)]
    case SetBroker(host, port) => [Bare("broker"), Bare(host), Bare(IntText(port))]
    case SetTurnout(index, config) =>
      [Bare("turnout"), Bare(IntText(index + 1)), Bare("pin"), Bare(IntText(config.outputPin)), Bare("fb"),
       Bare(IntText(config.feedbackPin)), Bare("orientation"), Bare(OrientationText(config.orientation)),
       Bare("settle"), Bare(IntText(config.settleDuration)), Bare("timeout"), Bare(IntText(config.movementTimeout))]
    case SetLocoNetAddress(index, address) => [Bare("address"), Bare(IntText(index + 1)), Bare(IntText(address))]
    case Show => [Bare("show")]
    case Save => [Bare("save")]
    case Reboot => [Bare("reboot")]
  }

  function OrientationText(orientation: Orientation): string {
    if orientation.inverted then "inverted" else "normal"
  }

  /** Durations that print as a number an int can hold. */
  predicate Printable(config: TurnoutConfig) {
    config.settleDuration <= 0x7FFF_FFFF && config.movementTimeout <= 0x7FFF_FFFF
  }

  /** What the words of a command's line can carry: strings without quotes, a host that is one
      bare word. */
  predicate Legible(command: Command) {
    match command
    case SetWifi(ssid, password) => All(ssid, NotQuote) && All(password, NotQuote)
    case SetBroker(host, _) => IsBare(host)
    case Invalid(_) => false
    case _ => true
  }

  /** A legible command whose numbers all fit an int. */
  predicate Writable(command: Command) {
    Legible(command) && (command.SetTurnout? ==> Printable(command.config))
  }

  lemma IntTextIsBare(n: int)
    ensures IsBare(IntText(n))
  {
    var magnitude := if n < 0 then -n else n;
    assert All(NatText(magnitude), IsDigit);
    assert forall c: char :: IsDigit(c) ==> NotSpace(c) && c != '"';
  }

  lemma KeywordsAreBare()
    ensures IsBare("id") && IsBare("wifi") && IsBare("broker") && IsBare("turnout") && IsBare("address")
    ensures IsBare("show") && IsBare("save") && IsBare("reboot")
  {
  }

  lemma TurnoutKeywordsAreBare()
    ensures IsBare("pin") && IsBare("fb") && IsBare("orientation") && IsBare("settle") && IsBare("timeout")
    ensures IsBare("normal") && IsBare("inverted")
  {
  }

  lemma WordsAreReadable(command: Command)
    requires Legible(command)
    ensures forall i :: 0 <= i < |WordsOf(command)| ==> WordsOf(command)[i].Readable()
  {
    KeywordsAreBare();
    TurnoutKeywordsAreBare();
    hide IntText, IsBare, All;
    match command
    case SetId(id) => IntTextIsBare(id);
    case SetWifi(_, _) =>
    case SetBroker(_, port) => IntTextIsBare(port);
    case SetTurnout(index, config) =>
      IntTextIsBare(index + 1);
      IntTextIsBare(config.outputPin);
      IntTextIsBare(config.feedbackPin);
      IntTextIsBare(config.settleDuration);
      IntTextIsBare(config.movementTimeout);
    case SetLocoNetAddress(index, address) =>
      IntTextIsBare(index + 1);
      IntTextIsBare(address);
    case _ =>
  }

  /** The keyword and the number of words decide which command a line is. */
  lemma KeywordDecides(tokens: seq<string>)
    requires tokens != []
    ensures tokens[0] == "id" && |tokens| == 2 ==> ParseTokens(tokens) == ParseSetId(tokens)
    ensures tokens[0] == "wifi" && |tokens| == 3 ==> ParseTokens(tokens) == SetWifi(tokens[1], tokens[2])
    ensures tokens[0] == "broker" && |tokens| == 3 ==> ParseTokens(tokens) == ParseSetBroker(tokens)
    ensures tokens[0] == "turnout" && |tokens| == 12 ==> ParseTokens(tokens) == ParseSetTurnout(tokens)
    ensures tokens[0] == "address" && |tokens| == 3 ==> ParseTokens(tokens) == ParseSetLocoNetAddress(tokens)
    ensures tokens[0] == "show" && |tokens| == 1 ==> ParseTokens(tokens) == Show
    ensures tokens[0] == "save" && |tokens| == 1 ==> ParseTokens(tokens) == Save
    ensures tokens[0] == "reboot" && |tokens| == 1 ==> ParseTokens(tokens) == Reboot
    ensures tokens[0] == "id" && |tokens| != 2 ==> ParseTokens(tokens) == Invalid(Unrecognized)
    ensures tokens[0] in {"wifi", "broker", "address"} && |tokens| != 3 ==> ParseTokens(tokens) == Invalid(Unrecognized)
  {
    hide ParseSetId, ParseSetBroker, ParseSetTurnout, ParseSetLocoNetAddress;
    var keyword := tokens[0];
    assert |tokens| == 1 ==> tokens == [keyword];
    assert keyword in {"id", "wifi", "show", "save"} ==> |keyword| == 2 || |keyword| == 4;
  }

  /** A turnout line is read back, under the channel's own number, exactly when its durations fit
      an int. */
  lemma ParseOfTurnoutTokens(tokens: seq<string>, index: int, config: TurnoutConfig)
    requires 0 <= index < CHANNELS && |tokens| == 12
    requires tokens[2] == "pin" && tokens[4] == "fb" && tokens[6] == "orientation" && tokens[8] == "settle"
    requires tokens[10] == "timeout" && tokens[7] == OrientationText(config.orientation)
    requires tokens[1] == IntText(index + 1) && tokens[3] == IntText(config.outputPin)
    requires tokens[5] == IntText(config.feedbackPin) && tokens[9] == IntText(config.settleDuration)
    requires tokens[11] == IntText(config.movementTimeout)
    ensures ParseSetTurnout(tokens) ==
            if Printable(config) then SetTurnout(index, config.(id := index + 1)) else Invalid(BadTurnoutIntegers)
  {
    hide IntText, ParseInt;
    ParseIntOfIntText(index + 1);
    ParseIntOfIntText(config.outputPin);
    ParseIntOfIntText(config.feedbackPin);
    ParseIntOfIntText(config.settleDuration);
    ParseIntOfIntText(config.movementTimeout);
    assert tokens[7] == "inverted" <==> config.orientation.inverted;
  }

  lemma ParseOfTurnoutWords(index: int, config: TurnoutConfig)
    requires 0 <= index < CHANNELS
    ensures ParseTokens(Texts(WordsOf(SetTurnout(index, config)))) ==
            if Printable(config) then SetTurnout(index, config.(id := index + 1)) else Invalid(BadTurnoutIntegers)
  {
    hide IntText, ParseInt, ParseTokens, ParseSetTurnout, OrientationText;
    var words := WordsOf(SetTurnout(index, config));
    var tokens := Texts(words);
    assert tokens[0] == words[0].text && |tokens| == 12;
    KeywordDecides(tokens);
    ParseOfTurnoutTokens(tokens, index, config);
  }

  lemma ParseOfId(id: int32)
    ensures ParseTokens(["id", IntText(id)]) == SetId(id)
  {
    hide IntText, ParseInt;
    ParseIntOfIntText(id);
  }

  lemma ParseOfBroker(host: string, port: int32)
    ensures ParseTokens(["broker", host, IntText(port)]) == SetBroker(host, port)
  {
    hide IntText, ParseInt;
    ParseIntOfIntText(port);
  }

  lemma ParseOfAddress(index: nat, address: int32)
    requires index < CHANNELS
    ensures ParseTokens(["address", IntText(index + 1), IntText(address)]) == SetLocoNetAddress(index, address)
  {
    hide IntText, ParseInt;
    ParseIntOfIntText(index + 1);
    ParseIntOfIntText(address);
  }

  lemma ParseOfFixedTokens(ssid: string, password: string)
    ensures ParseTokens(["wifi", ssid, password]) == SetWifi(ssid, password)
    ensures ParseTokens(["show"]) == Show && ParseTokens(["save"]) == Save && ParseTokens(["reboot"]) == Reboot
  {
  }

  lemma ParseOfWords(command: Command)
    requires Writable(command) && command.WellFormed()
    ensures ParseTokens(Texts(WordsOf(command))) == command
  {
    hide IntText, ParseTokens, IsBare, All, NotQuote;
    var tokens := Texts(WordsOf(command));
    match command
    case SetTurnout(index, config) => ParseOfTurnoutWords(index, config);
    case SetId(id) =>
      ParseOfId(id);
      assert tokens == ["id", IntText(id)];
    case SetBroker(host, port) =>
      ParseOfBroker(host, port);
      assert tokens == ["broker", host, IntText(port)];
    case SetLocoNetAddress(index, address) =>
      ParseOfAddress(index, address);
      assert tokens == ["address", IntText(index + 1), IntText(address)];
    case SetWifi(ssid, password) =>
      ParseOfFixedTokens(ssid, password);
      assert tokens == ["wifi", ssid, password];
    case Show =>
      ParseOfFixedTokens("", "");
      assert tokens == ["show"];
    case Save =>
      ParseOfFixedTokens("", "");
      assert tokens == ["save"];
    case Reboot =>
      ParseOfFixedTokens("", "");
      assert tokens == ["reboot"];
  }

  /** Main result: every well-formed command that can be written is read back from its line. */
  lemma ParseOfWritten(command: Command)
    requires Writable(command) && command.WellFormed()
    ensures Parsed(Render(WordsOf(command))) == command
  {
    WordsAreReadable(command);
    TokensOfRender(WordsOf(command));
    ParseOfWords(command);
  }
}
