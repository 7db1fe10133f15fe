/** When the web form round trip is the identity: submitting the form that shows the draft
    leaves the draft as it is, stores exactly it and asks for a reboot. */
module WebRoundTrips {
  import opened Clock
  import opened Text
  import opened Tokenising
  import opened NodeConfigs
  import opened Commands
  import opened Sessions
  import opened WebForms
  import opened FormLines

  /** A configuration the form can show and the command language can carry: strings without
      quotes, a host that is one bare word, and for each wired channel its own number and
      durations an int can hold. */
  predicate Representable(config: NodeConfig) {
    config.id != 0 &&
    All(config.wifi.ssid, NotQuote) && All(config.wifi.password, NotQuote) &&
    IsBare(config.broker.host) &&
    forall i: nat :: i < CHANNELS ==> TurnoutRepresentable(config.turnouts[i], i)
  }

  predicate TurnoutRepresentable(turnout: TurnoutConfig, i: nat) {
    turnout.outputPin == -1 || (turnout.id == i + 1 && Printable(turnout))
  }

  // ----- The lines of a shown draft are written commands ------------------------------------------

  lemma TokensOfCommand(command: Command)
    requires Legible(command)
    ensures Tokens(Render(WordsOf(command))) == Texts(WordsOf(command))
  {
    WordsAreReadable(command);
    TokensOfRender(WordsOf(command));
  }

  lemma RenderThree(a: Word, b: Word, c: Word)
    ensures Render([a, b]) == a.Written() + " " + b.Written()
    ensures Render([a, b, c]) == a.Written() + " " + (b.Written() + " " + c.Written())
  {
    assert [a, b] == [a] + [b] && [b, c] == [b] + [c] && [a, b, c] == [a] + [b, c];
    RenderCons(a, [b]);
    RenderCons(b, [c]);
    RenderCons(a, [b, c]);
  }

  lemma {:induction false} RenderAppend(words: seq<Word>, more: seq<Word>)
    requires words != [] && more != []
    ensures Render(words + more) == Render(words) + " " + Render(more)
  {
    var tail := words[1..];
    assert words == [words[0]] + tail;
    if tail == [] {
      RenderCons(words[0], more);
    } else {
      RenderAppend(tail, more);
      RenderAppendStep(words[0], tail, more);
    }
  }

  lemma RenderAppendStep(word: Word, tail: seq<Word>, more: seq<Word>)
    requires tail != [] && more != [] && Render(tail + more) == Render(tail) + " " + Render(more)
    ensures Render([word] + tail + more) == Render([word] + tail) + " " + Render(more)
  {
    hide Render, Word.Written;
    assert [word] + tail + more == [word] + (tail + more);
    RenderCons(word, tail);
    RenderCons(word, tail + more);
    Regroup(word.Written() + " ", Render(tail), " ", Render(more));
  }

  /** A keyword and its value appended to a line. */
  lemma RenderPair(words: seq<Word>, keyword: string, text: string, separator: string)
    requires words != [] && separator == " " + keyword + " "
    ensures Render(words + [Bare(keyword), Bare(text)]) == Render(words) + separator + text
  {
    RenderAppend(words, [Bare(keyword), Bare(text)]);
    RenderThree(Bare(keyword), Bare(text), Bare(text));
    Regroup(Render(words) + " ", keyword, " ", text);
    Regroup(Render(words), " ", keyword, " ");
    assert Render(words) + " " + (keyword + " " + text) == Render(words) + " " + keyword + " " + text;
  }

  lemma TurnoutLineOfTexts(n: string, pin: string, fb: string, orientation: string, settle: string, timeout: string)
    ensures Render([Bare("turnout"), Bare(n), Bare("pin"), Bare(pin), Bare("fb"), Bare(fb), Bare("orientation"),
                    Bare(orientation), Bare("settle"), Bare(settle), Bare("timeout"), Bare(timeout)]) ==
            "turnout " + n + " pin " + pin + " fb " + fb + " orientation " + orientation + " settle " + settle +
            " timeout " + timeout
  {
    hide Render;
    var w := [Bare("turnout"), Bare(n)];
    RenderThree(Bare("turnout"), Bare(n), Bare(n));
    assert "turnout" + " " == "turnout ";
    RenderPair(w, "pin", pin, " pin ");
    w := w + [Bare("pin"), Bare(pin)];
    RenderPair(w, "fb", fb, " fb ");
    w := w + [Bare("fb"), Bare(fb)];
    RenderPair(w, "orientation", orientation, " orientation ");
    w := w + [Bare("orientation"), Bare(orientation)];
    RenderPair(w, "settle", settle, " settle ");
    w := w + [Bare("settle"), Bare(settle)];
    RenderPair(w, "timeout", timeout, " timeout ");
    assert w + [Bare("timeout"), Bare(timeout)] ==
           [Bare("turnout"), Bare(n), Bare("pin"), Bare(pin), Bare("fb"), Bare(fb), Bare("orientation"),
            Bare(orientation), Bare("settle"), Bare(settle), Bare("timeout"), Bare(timeout)];
  }

  lemma TurnoutLineIsWritten(i: nat, turnout: TurnoutConfig, address: int32)
    requires turnout.outputPin != -1
    ensures TurnoutLine(i, FieldOf(turnout, address)) == Render(WordsOf(SetTurnout(i, turnout)))
  {
    hide IntText, Render;
    TurnoutLineOfTexts(IntText(i + 1), IntText(turnout.outputPin), IntText(turnout.feedbackPin),
                       OrientationText(turnout.orientation), IntText(turnout.settleDuration),
                       IntText(turnout.movementTimeout));
  }

  lemma IdLineIsWritten(id: int32)
    ensures "id " + IntText(id) == Render(WordsOf(SetId(id)))
  {
    hide IntText;
    RenderThree(Bare("id"), Bare(IntText(id)), Bare(""));
    assert "id" + " " + IntText(id) == "id " + IntText(id);
  }

  lemma AddressLineIsWritten(i: nat, turnout: TurnoutConfig, address: int32)
    ensures AddressLine(i, FieldOf(turnout, address)) == Render(WordsOf(SetLocoNetAddress(i, address)))
  {
    RenderThree(Bare("address"), Bare(IntText(i + 1)), Bare(IntText(address)));
    assert IntText(0) == "0";
    assert IntText(address) != "";
    hide IntText, Render;
    var n, text := IntText(i + 1), IntText(address);
    assert "address" + " " + (n + " " + text) == "address " + n + " " + text;
  }

  // ----- Which lines keep the draft ------------------------------------------------------------------

  /** The first token of a line: quote-free if the first character that is not space opens a
      quotation, else a bare word. */
  lemma {:induction false} FirstToken(line: string)
    requires Tokens(line) != []
    ensures var k := Span(line, IsSpace);
            k < |line| && if line[k] == '"' then All(Tokens(line)[0], NotQuote) else IsBare(Tokens(line)[0])
    decreases |line|
  {
    if IsSpace(line[0]) {
      FirstToken(line[1..]);
    } else if line[0] == '"' {
      assert line[1..1 + Span(line[1..], NotQuote)] == line[1..][..Span(line[1..], NotQuote)];
    } else {
      SpanStarts(line);
    }
  }

  lemma IdKeeps(draft: NodeConfig)
    ensures Keeps(draft, IdLine(FormOf(draft))) <==> draft.id != 0
    ensures var command := Parsed(IdLine(FormOf(draft))); command.SetId? || command.Invalid?
  {
    if draft.id == 0 {
      assert "id " + "" == "id" + " " && " " + "" == " ";
      BareThen("id", " ");
      SpaceThen("");
      KeywordDecides(Tokens("id "));
    } else {
      IdLineIsWritten(draft.id);
      ParseOfWritten(SetId(draft.id));
    }
  }

  lemma WifiLineTokens(ssid: string, password: string)
    ensures Tokens("wifi \"" + ssid + "\" \"" + password + "\"") ==
            ["wifi"] + Tokens("\"" + ssid + "\" \"" + password + "\"")
  {
    hide Tokens;
    KeywordsAreBare();
    var rest := "\"" + ssid + "\" \"" + password + "\"";
    assert "wifi \"" + ssid + "\" \"" + password + "\"" == "wifi" + (" " + rest);
    BareThen("wifi", " " + rest);
    SpaceThen(rest);
  }

  lemma QuotedFirst(line: string)
    requires line != "" && line[0] == '"'
    ensures Tokens(line) != [] && All(Tokens(line)[0], NotQuote)
  {
    FirstToken(line);
    SpanIsUnique(line, IsSpace, 0);
  }

  lemma QuotedAloneTokens(text: string)
    ensures Tokens("\"" + text + "\"") == [text] <==> All(text, NotQuote)
  {
    var line := "\"" + text + "\"";
    QuotedFirst(line);
    if All(text, NotQuote) {
      assert line == "\"" + text + "\"" + "";
      QuotedThen(text, "");
    }
  }

  /** The quoted pair reads as itself exactly when neither part holds a quote. */
  lemma QuotedPairTokens(ssid: string, password: string)
    ensures Tokens("\"" + ssid + "\" \"" + password + "\"") == [ssid, password] <==>
            All(ssid, NotQuote) && All(password, NotQuote)
  {
    hide Tokens, All;
    var line, second := "\"" + ssid + "\" \"" + password + "\"", "\"" + password + "\"";
    QuotedFirst(line);
    QuotedAloneTokens(password);
    if All(ssid, NotQuote) {
      assert line == "\"" + ssid + "\"" + (" " + second);
      QuotedThen(ssid, " " + second);
      SpaceThen(second);
      assert Tokens(line) == [ssid, password] ==> Tokens(line)[1..] == [password];
    }
  }

  lemma WifiKeeps(draft: NodeConfig)
    ensures Keeps(draft, WifiLine(FormOf(draft))) <==>
            All(draft.wifi.ssid, NotQuote) && All(draft.wifi.password, NotQuote)
    ensures var command := Parsed(WifiLine(FormOf(draft))); command.SetWifi? || command.Invalid?
  {
    hide Tokens, All, ParseTokens;
    var ssid, password := draft.wifi.ssid, draft.wifi.password;
    WifiLineTokens(ssid, password);
    QuotedPairTokens(ssid, password);
    KeywordDecides(Tokens(WifiLine(FormOf(draft))));
    var pair := Tokens("\"" + ssid + "\" \"" + password + "\"");
    assert Tokens(WifiLine(FormOf(draft))) == ["wifi"] + pair;
    assert |pair| == 2 ==> pair == [pair[0], pair[1]];
  }

  lemma HostReadAsItself(host: string, port: int32)
    requires var tokens := Tokens(host + " " + IntText(port)); tokens != [] && tokens[0] == host
    ensures IsBare(host)
  {
    var line := host + " " + IntText(port);
    FirstToken(line);
    IntTextHasNoQuote(port);
    assert forall k :: |host| < k < |line| ==> line[k] == IntText(port)[k - |host| - 1];
    assert line[Span(line, IsSpace)] == '"' ==> Span(line, IsSpace) < |host|;
  }

  lemma IntTextHasNoQuote(n: int)
    ensures All(IntText(n), NotQuote)
  {
    var magnitude := if n < 0 then -n else n;
    assert All(NatText(magnitude), IsDigit);
  }

  lemma BrokerKeeps(draft: NodeConfig)
    ensures Keeps(draft, BrokerLine(FormOf(draft))) <==> IsBare(draft.broker.host)
    ensures var command := Parsed(BrokerLine(FormOf(draft))); command.SetBroker? || command.Invalid?
  {
    hide Tokens, IntText, ParseTokens, All, Render;
    var host, port := draft.broker.host, draft.broker.port;
    var line, rest := BrokerLine(FormOf(draft)), host + " " + IntText(port);
    KeywordsAreBare();
    assert line == "broker" + (" " + rest);
    BareThen("broker", " " + rest);
    SpaceThen(rest);
    KeywordDecides(Tokens(line));
    if IsBare(host) {
      RenderThree(Bare("broker"), Bare(host), Bare(IntText(port)));
      assert line == Render(WordsOf(SetBroker(host, port)));
      ParseOfWritten(SetBroker(host, port));
    }
    if Keeps(draft, line) {
      assert Tokens(line)[1] == Tokens(rest)[0];
      HostReadAsItself(host, port);
    }
  }

  lemma TurnoutKeeps(draft: NodeConfig, i: nat)
    requires i < CHANNELS && draft.turnouts[i].outputPin != -1
    ensures var line := TurnoutLine(i, FieldOf(draft.turnouts[i], draft.addresses[i]));
            (Keeps(draft, line) <==> TurnoutRepresentable(draft.turnouts[i], i)) &&
            (Parsed(line).Invalid? || (Parsed(line).SetTurnout? && Parsed(line).index == i))
  {
    hide Tokens, Texts, ParseTokens, TurnoutLine, FieldOf, WordsOf;
    var turnout := draft.turnouts[i];
    TurnoutLineIsWritten(i, turnout, draft.addresses[i]);
    TokensOfCommand(SetTurnout(i, turnout));
    ParseOfTurnoutWords(i, turnout);
    if Printable(turnout) {
      var edited := draft.turnouts[i := turnout.(id := i + 1)];
      assert edited == draft.turnouts <==> turnout.id == i + 1 by {
        assert edited[i] == turnout.(id := i + 1);
      }
    }
  }

  lemma AddressKeeps(draft: NodeConfig, i: nat)
    requires i < CHANNELS
    ensures var line := AddressLine(i, FieldOf(draft.turnouts[i], draft.addresses[i]));
            Keeps(draft, line) && Parsed(line).SetLocoNetAddress? && Parsed(line).index == i
  {
    hide AddressLine, FieldOf, Parsed, Render;
    AddressLineIsWritten(i, draft.turnouts[i], draft.addresses[i]);
    ParseOfWritten(SetLocoNetAddress(i, draft.addresses[i]));
    assert draft.addresses[i := draft.addresses[i]] == draft.addresses;
  }

  // ----- The lines of a shown draft ------------------------------------------------------------------------

  lemma KeepConcat(draft: NodeConfig, a: seq<string>, b: seq<string>)
    ensures AllKeep(draft, a + b) <==> AllKeep(draft, a) && AllKeep(draft, b)
  {
    hide Keeps;
    assert forall k :: 0 <= k < |a| ==> (a + b)[k] == a[k];
    assert forall k :: 0 <= k < |b| ==> (a + b)[|a| + k] == b[k];
  }

  lemma FieldAt(draft: NodeConfig, i: nat)
    requires i < CHANNELS
    ensures FormOf(draft).turnouts[i] == FieldOf(draft.turnouts[i], draft.addresses[i])
    ensures FormOf(draft).turnouts[i].pin == "" <==> draft.turnouts[i].outputPin == -1
  {
    IntTextIsBare(draft.turnouts[i].outputPin);
  }

  lemma KeepNone(draft: NodeConfig)
    ensures AllKeep(draft, [])
  {
  }

  lemma KeepOne(draft: NodeConfig, line: string)
    ensures AllKeep(draft, [line]) <==> Keeps(draft, line)
  {
    assert [line][0] == line;
  }

  lemma {:induction false} TurnoutLinesKeep(draft: NodeConfig, n: nat)
    requires n <= CHANNELS
    ensures AllKeep(draft, TurnoutLines(FormOf(draft).turnouts, n)) <==>
            forall i: nat :: i < n ==> TurnoutRepresentable(draft.turnouts[i], i)
  {
    hide AllKeep, Keeps, TurnoutRepresentable, FormOf, FieldOf, TurnoutLine;
    if n == 0 {
      KeepNone(draft);
    } else {
      var i, fields := n - 1, FormOf(draft).turnouts;
      var line := if fields[i].pin == "" then [] else [TurnoutLine(i, fields[i])];
      TurnoutLinesKeep(draft, i);
      OneTurnoutKeeps(draft, i);
      KeepConcat(draft, TurnoutLines(fields, i), line);
    }
  }

  lemma OneTurnoutKeeps(draft: NodeConfig, i: nat)
    requires i < CHANNELS
    ensures var field := FormOf(draft).turnouts[i];
            AllKeep(draft, if field.pin == "" then [] else [TurnoutLine(i, field)]) <==>
            TurnoutRepresentable(draft.turnouts[i], i)
  {
    hide AllKeep, Keeps, Parsed, TurnoutRepresentable, FormOf, FieldOf, TurnoutLine;
    FieldAt(draft, i);
    if draft.turnouts[i].outputPin == -1 {
      UnwiredIsRepresentable(draft.turnouts[i], i);
      KeepNone(draft);
    } else {
      TurnoutKeeps(draft, i);
      KeepOne(draft, TurnoutLine(i, FieldOf(draft.turnouts[i], draft.addresses[i])));
    }
  }

  lemma UnwiredIsRepresentable(turnout: TurnoutConfig, i: nat)
    requires turnout.outputPin == -1
    ensures TurnoutRepresentable(turnout, i)
  {
  }

  lemma {:induction false} AddressLinesKeep(draft: NodeConfig, n: nat)
    requires n <= CHANNELS
    ensures AllKeep(draft, AddressLines(FormOf(draft).turnouts, n))
  {
    hide AllKeep, Keeps, Parsed, FormOf, FieldOf, AddressLine;
    if n == 0 {
      KeepNone(draft);
    } else {
      var i, fields := n - 1, FormOf(draft).turnouts;
      AddressLinesKeep(draft, i);
      FieldAt(draft, i);
      AddressKeeps(draft, i);
      KeepOne(draft, AddressLine(i, fields[i]));
      KeepConcat(draft, AddressLines(fields, i), [AddressLine(i, fields[i])]);
    }
  }

  lemma HeadLinesKeep(draft: NodeConfig)
    ensures var form := FormOf(draft);
            AllKeep(draft, [IdLine(form), WifiLine(form), BrokerLine(form)]) <==>
            draft.id != 0 && All(draft.wifi.ssid, NotQuote) && All(draft.wifi.password, NotQuote) &&
            IsBare(draft.broker.host)
  {
    hide Keeps, Parsed, All, IsBare, FormOf, IdLine, WifiLine, BrokerLine;
    var form := FormOf(draft);
    var lines := [IdLine(form), WifiLine(form), BrokerLine(form)];
    IdKeeps(draft);
    WifiKeeps(draft);
    BrokerKeeps(draft);
    assert AllKeep(draft, lines) <==> Keeps(draft, lines[0]) && Keeps(draft, lines[1]) && Keeps(draft, lines[2]);
  }

  /** The lines of the form that shows a draft all keep the draft exactly when it is
      representable. */
  lemma ShownLinesKeep(draft: NodeConfig)
    ensures AllKeep(draft, CommandLines(FormOf(draft))) <==> Representable(draft)
  {
    hide AllKeep, All, IsBare, FormOf, IdLine, WifiLine, BrokerLine, TurnoutLines, AddressLines;
    hide TurnoutRepresentable;
    var form := FormOf(draft);
    var head := [IdLine(form), WifiLine(form), BrokerLine(form)];
    var turnouts, addresses := TurnoutLines(form.turnouts, CHANNELS), AddressLines(form.turnouts, CHANNELS);
    HeadLinesKeep(draft);
    TurnoutLinesKeep(draft, CHANNELS);
    AddressLinesKeep(draft, CHANNELS);
    KeepConcat(draft, head, turnouts);
    KeepConcat(draft, head + turnouts, addresses);
  }

  // ----- The round trip -------------------------------------------------------------------------------------

  /** Submitting the form that shows the draft asks for a reboot, leaves the draft as it is and
      stores exactly it. */
  predicate RoundTrips(s: Session) {
    var (after, response) := Submitted(s, FormOf(s.draft));
    response == Rebooting && after.draft == s.draft && after.stored == s.draft
  }

  /** Main result: the round trip is the identity exactly on the valid, representable drafts. */
  lemma RoundTripExactlyWhenRepresentable(s: Session)
    ensures RoundTrips(s) <==> Valid(s.draft) && Representable(s.draft)
    ensures RoundTrips(s) ==> Submitted(s, FormOf(s.draft)).0.saves == s.saves + [s.draft]
  {
    hide WriteSlots, AllKeep, Representable, FormOf, CommandLines, Errors, Valid, ApplyLines;
    hide FormSlots;
    var lines, slots := CommandLines(FormOf(s.draft)), FormSlots(FormOf(s.draft));
    FormLinesWriteSlots(FormOf(s.draft));
    ShownLinesKeep(s.draft);
    ValidatorIsSoundAndComplete(s.draft);
    if AllKeep(s.draft, lines) {
      KeepingLinesReturn(s, lines, slots);
    }
    if RoundTrips(s) {
      ReturningLinesKeep(s, lines, slots);
      KeepingLinesReturn(s, lines, slots);
    }
  }
}
