/** The form reaches what it shows: submitting the form of any representable configuration gives a
    draft that configuration's values, wherever the form has a field for them. */
module FormReaches {
  import opened Positions
  import opened Text
  import opened Tokenising
  import opened NodeConfigs
  import opened Commands
  import opened Sessions
  import opened WebForms
  import opened FormLines
  import opened WebRoundTrips

  /** The channels before `n` that the configuration wires, from it; the others from the draft. */
  function TurnoutsTaken(draft: NodeConfig, config: NodeConfig, n: nat): TurnoutConfigs {
    seq(8, (i: nat) requires i < 8 =>
      if i < n && config.turnouts[i].outputPin != -1 then config.turnouts[i] else draft.turnouts[i])
  }

  function AddressesTaken(draft: NodeConfig, config: NodeConfig, n: nat): Addresses
    requires n <= 8
  {
    config.addresses[..n] + draft.addresses[n..]
  }

  /** The configuration's id, credentials, broker, addresses and wired channels; the draft's
      channels where the configuration wires none. */
  function Merged(draft: NodeConfig, config: NodeConfig): NodeConfig {
    NodeConfig(config.id, WifiCredentials(config.wifi.ssid, config.wifi.password),
               BrokerAddress(config.broker.host, config.broker.port),
               TurnoutsTaken(draft, config, 8), AddressesTaken(draft, config, 8))
  }

  // ----- Applying lines in parts -----------------------------------------------------------------

  lemma {:induction false} ApplyInTurn(s: Session, first: seq<string>, second: seq<string>)
    requires ApplyLines(s, first).1 == None
    ensures ApplyLines(s, first + second) == ApplyLines(ApplyLines(s, first).0, second)
    decreases |first|
  {
    hide Session.Applied, Session.ResultOf, Parsed;
    if first == [] {
      assert first + second == second;
    } else {
      assert (first + second)[1..] == first[1..] + second;
      ApplyInTurn(s.Applied(Parsed(first[0])), first[1..], second);
    }
  }

  lemma ApplyOne(s: Session, line: string)
    requires Slot(Parsed(line)) >= 0
    ensures ApplyLines(s, [line]) == (s.(draft := Edited(s.draft, Parsed(line))), None)
  {
    hide Parsed, Edited;
    assert [line][1..] == [];
  }

  lemma ApplyNext(s: Session, lines: seq<string>, line: string)
    requires ApplyLines(s, lines).1 == None && Slot(Parsed(line)) >= 0
    ensures var made := ApplyLines(s, lines).0;
            ApplyLines(s, lines + [line]) == (made.(draft := Edited(made.draft, Parsed(line))), None)
  {
    hide Parsed, Edited, ApplyLines, Slot;
    ApplyInTurn(s, lines, [line]);
    ApplyOne(ApplyLines(s, lines).0, line);
  }

  // ----- What each line of a shown configuration reads as ------------------------------------------

  lemma HeadLinesRead(config: NodeConfig)
    requires Representable(config)
    ensures var form := FormOf(config);
            Parsed(IdLine(form)) == SetId(config.id) &&
            Parsed(WifiLine(form)) == SetWifi(config.wifi.ssid, config.wifi.password) &&
            Parsed(BrokerLine(form)) == SetBroker(config.broker.host, config.broker.port)
  {
    IdLineReads(config);
    WifiLineReads(config);
    BrokerLineReads(config);
  }

  lemma IdLineReads(config: NodeConfig)
    requires config.id != 0
    ensures Parsed(IdLine(FormOf(config))) == SetId(config.id)
  {
    hide Parsed, IntText, Render;
    IdLineIsWritten(config.id);
    ParseOfWritten(SetId(config.id));
  }

  lemma WifiLineReads(config: NodeConfig)
    requires All(config.wifi.ssid, NotQuote) && All(config.wifi.password, NotQuote)
    ensures Parsed(WifiLine(FormOf(config))) == SetWifi(config.wifi.ssid, config.wifi.password)
  {
    hide Tokens, All, ParseTokens;
    var ssid, password := config.wifi.ssid, config.wifi.password;
    WifiLineTokens(ssid, password);
    QuotedPairTokens(ssid, password);
    KeywordDecides(Tokens(WifiLine(FormOf(config))));
    assert ["wifi"] + [ssid, password] == ["wifi", ssid, password];
  }

  lemma BrokerLineReads(config: NodeConfig)
    requires IsBare(config.broker.host)
    ensures Parsed(BrokerLine(FormOf(config))) == SetBroker(config.broker.host, config.broker.port)
  {
    hide Parsed, IntText, Render, IsBare;
    var host, port := config.broker.host, config.broker.port;
    RenderThree(Bare("broker"), Bare(host), Bare(IntText(port)));
    assert "broker" + " " + (host + " " + IntText(port)) == "broker " + host + " " + IntText(port);
    ParseOfWritten(SetBroker(host, port));
  }

  lemma TurnoutLineReads(config: NodeConfig, i: nat)
    requires i < CHANNELS && TurnoutRepresentable(config.turnouts[i], i) && config.turnouts[i].outputPin != -1
    ensures Parsed(TurnoutLine(i, FieldOf(config.turnouts[i], config.addresses[i]))) ==
            SetTurnout(i, config.turnouts[i])
  {
    hide Tokens, Texts, ParseTokens, TurnoutLine, FieldOf, WordsOf, Render;
    var turnout := config.turnouts[i];
    TurnoutLineIsWritten(i, turnout, config.addresses[i]);
    TokensOfCommand(SetTurnout(i, turnout));
    ParseOfTurnoutWords(i, turnout);
  }

  lemma AddressLineReads(config: NodeConfig, i: nat)
    requires i < CHANNELS
    ensures Parsed(AddressLine(i, FieldOf(config.turnouts[i], config.addresses[i]))) ==
            SetLocoNetAddress(i, config.addresses[i])
  {
    hide AddressLine, FieldOf, Parsed, Render;
    AddressLineIsWritten(i, config.turnouts[i], config.addresses[i]);
    ParseOfWritten(SetLocoNetAddress(i, config.addresses[i]));
  }

  /** What a shown field says: each number as it is, the orientation in words; nothing at all of a
      channel without a pin or an address of zero. */
  lemma ShownFieldReads(config: NodeConfig, i: nat)
    requires i < CHANNELS
    ensures var turnout, field := config.turnouts[i], FormOf(config).turnouts[i];
            if turnout.outputPin == -1 then
              field.pin == "" && field.feedbackPin == "" && field.orientation == "" && field.settleMs == "" &&
              field.timeoutMs == ""
            else
              ParseInt(field.pin) == Some(turnout.outputPin) &&
              ParseInt(field.feedbackPin) == Some(turnout.feedbackPin) &&
              field.orientation == (if turnout.orientation.inverted then "inverted" else "normal") &&
              (Printable(turnout) ==> ParseInt(field.settleMs) == Some(turnout.settleDuration) &&
                                      ParseInt(field.timeoutMs) == Some(turnout.movementTimeout))
    ensures var address, text := config.addresses[i], FormOf(config).turnouts[i].locoNetAddress;
            if address == 0 then text == "" else ParseInt(text) == Some(address)
  {
    hide ParseInt, IntText;
    var turnout := config.turnouts[i];
    ParseIntOfIntText(turnout.outputPin);
    ParseIntOfIntText(turnout.feedbackPin);
    ParseIntOfIntText(turnout.settleDuration);
    ParseIntOfIntText(turnout.movementTimeout);
    ParseIntOfIntText(config.addresses[i]);
  }

  // ----- What the lines make of the draft -------------------------------------------------------------

  lemma HeadMakes(s: Session, config: NodeConfig)
    requires Representable(config)
    ensures var form := FormOf(config);
            ApplyLines(s, [IdLine(form), WifiLine(form), BrokerLine(form)]) ==
            (s.(draft := s.draft.(id := config.id, wifi := config.wifi, broker := config.broker)), None)
  {
    var form := FormOf(config);
    var id, wifi, broker := IdLine(form), WifiLine(form), BrokerLine(form);
    hide Parsed, FormOf, IdLine, WifiLine, BrokerLine, ApplyLines, Representable;
    HeadLinesRead(config);
    ApplyOne(s, id);
    ApplyNext(s, [id], wifi);
    ApplyNext(s, [id] + [wifi], broker);
    assert [id] + [wifi] + [broker] == [id, wifi, broker];
  }

  lemma NothingTaken(s: Session, config: NodeConfig)
    ensures TurnoutsTaken(s.draft, config, 0) == s.draft.turnouts
    ensures AddressesTaken(s.draft, config, 0) == s.draft.addresses
    ensures ApplyLines(s, []) == (s, None)
  {
  }

  lemma {:induction false} TurnoutsMake(s: Session, config: NodeConfig, n: nat)
    requires Representable(config) && n <= CHANNELS
    ensures ApplyLines(s, TurnoutLines(FormOf(config).turnouts, n)) ==
            (s.(draft := s.draft.(turnouts := TurnoutsTaken(s.draft, config, n))), None)
  {
    hide FormOf, FieldOf, TurnoutLine, ApplyLines, Parsed, TurnoutsTaken, TurnoutRepresentable;
    NothingTaken(s, config);
    if n == 0 {
      return;
    }
    var i, fields := n - 1, FormOf(config).turnouts;
    TurnoutsMake(s, config, i);
    FieldAt(config, i);
    TurnoutsTakenNext(s.draft, config, i);
    assert TurnoutRepresentable(config.turnouts[i], i);
    if config.turnouts[i].outputPin == -1 {
      assert TurnoutLines(fields, i) + [] == TurnoutLines(fields, i);
    } else {
      TurnoutLineReads(config, i);
      ApplyNext(s, TurnoutLines(fields, i), TurnoutLine(i, fields[i]));
    }
  }

  lemma TurnoutsTakenNext(draft: NodeConfig, config: NodeConfig, i: nat)
    requires i < CHANNELS
    ensures TurnoutsTaken(draft, config, i + 1) ==
            if config.turnouts[i].outputPin == -1 then TurnoutsTaken(draft, config, i)
            else TurnoutsTaken(draft, config, i)[i := config.turnouts[i]]
  {
  }

  lemma {:induction false} AddressesMake(s: Session, config: NodeConfig, n: nat)
    requires n <= CHANNELS
    ensures ApplyLines(s, AddressLines(FormOf(config).turnouts, n)) ==
            (s.(draft := s.draft.(addresses := AddressesTaken(s.draft, config, n))), None)
  {
    hide FormOf, FieldOf, AddressLine, ApplyLines, Parsed, AddressesTaken;
    NothingTaken(s, config);
    if n == 0 {
      return;
    }
    var i, fields := n - 1, FormOf(config).turnouts;
    AddressesMake(s, config, i);
    FieldAt(config, i);
    AddressesTakenNext(s.draft, config, i);
    AddressLineReads(config, i);
    ApplyNext(s, AddressLines(fields, i), AddressLine(i, fields[i]));
  }

  lemma AddressesTakenNext(draft: NodeConfig, config: NodeConfig, i: nat)
    requires i < CHANNELS
    ensures AddressesTaken(draft, config, i + 1) == AddressesTaken(draft, config, i)[i := config.addresses[i]]
  {
    assert config.addresses[..i + 1] == config.addresses[..i] + [config.addresses[i]];
  }

  /** The lines of the form that shows a representable configuration are all accepted, and make
      the draft that configuration wherever the form has fields. */
  lemma LinesMakeMerged(s: Session, config: NodeConfig)
    requires Representable(config)
    ensures ApplyLines(s, CommandLines(FormOf(config))) == (s.(draft := Merged(s.draft, config)), None)
  {
    var form := FormOf(config);
    var head := [IdLine(form), WifiLine(form), BrokerLine(form)];
    var turnouts, addresses := TurnoutLines(form.turnouts, CHANNELS), AddressLines(form.turnouts, CHANNELS);
    hide FormOf, IdLine, WifiLine, BrokerLine, TurnoutLines, AddressLines, ApplyLines, Representable;
    HeadMakes(s, config);
    var s1 := ApplyLines(s, head).0;
    TurnoutsMake(s1, config, CHANNELS);
    ApplyInTurn(s, head, turnouts);
    var s2 := ApplyLines(s1, turnouts).0;
    AddressesMake(s2, config, CHANNELS);
    ApplyInTurn(s, head + turnouts, addresses);
    assert TurnoutsTaken(s1.draft, config, CHANNELS) == TurnoutsTaken(s.draft, config, CHANNELS);
    assert AddressesTaken(s2.draft, config, CHANNELS) == AddressesTaken(s.draft, config, CHANNELS);
  }

  /** Main result: submitting the form of any representable configuration, from any session, makes
      the draft that configuration (keeping the draft's channels where it wires none), stores
      exactly that and reboots if it is valid, and else answers with its errors. */
  lemma SubmissionReachesTheForm(s: Session, config: NodeConfig)
    requires Representable(config)
    ensures var (after, response) := Submitted(s, FormOf(config));
            var draft := after.draft;
            draft.id == config.id && draft.wifi == config.wifi && draft.broker == config.broker &&
            (forall i :: 0 <= i < 8 ==> draft.addresses[i] == config.addresses[i]) &&
            (forall i :: 0 <= i < 8 ==>
              draft.turnouts[i] ==
              if config.turnouts[i].outputPin != -1 then config.turnouts[i] else s.draft.turnouts[i]) &&
            if Valid(draft) then
              response == Rebooting && after.stored == draft && after.saves == s.saves + [draft]
            else response == Error(ConfigErrors(Errors(draft))) && after.stored == s.stored && after.saves == s.saves
  {
    hide FormOf, CommandLines, ApplyLines, Errors, Valid, Representable;
    LinesMakeMerged(s, config);
    ValidatorIsSoundAndComplete(Merged(s.draft, config));
  }
}
