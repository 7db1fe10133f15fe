/** Safety of the shared session over any interleaving of its two channels: only valid
    configurations reach the store, and only by a successful save of the draft of the moment. */
module CommissioningSafety {
  import opened Text
  import opened Tokenising
  import opened NodeConfigs
  import opened Commands
  import opened Sessions
  import opened WebForms
  import opened FormLines
  import opened WebRoundTrips
  import opened Serials

  // ----- A submission is a transaction on the store ------------------------------------------------------

  /** Channel `i` keeps the number `i + 1`. */
  ghost predicate Numbered(config: NodeConfig) {
    forall i :: 0 <= i < CHANNELS ==> config.turnouts[i].id == i + 1
  }

  lemma {:induction false} SettingLinesKeepStore(s: Session, lines: seq<string>, slots: seq<int>)
    requires WriteSlots(lines, slots)
    ensures var after := ApplyLines(s, lines).0;
            after.stored == s.stored && after.saves == s.saves && (Numbered(s.draft) ==> Numbered(after.draft))
    decreases |lines|
  {
    if lines != [] {
      var command := Parsed(lines[0]);
      WriteSlotsTail(lines, slots);
      assert s.Applied(command).stored == s.stored && s.Applied(command).saves == s.saves;
      SettingLinesKeepStore(s.Applied(command), lines[1..], slots[1..]);
    }
  }

  /** Main result: for any form whatever, a submission either answers with a reboot, having saved
      exactly its final, valid draft, or answers with an error and leaves the store as it was. */
  lemma SubmissionIsTransactional(s: Session, form: WebForm)
    ensures var (after, response) := Submitted(s, form);
            if response == Rebooting then
              Valid(after.draft) && after.stored == after.draft && after.saves == s.saves + [after.draft]
            else
              response.Error? && after.stored == s.stored && after.saves == s.saves
    ensures Numbered(s.draft) ==> Numbered(Submitted(s, form).0.draft)
  {
    hide CommandLines, ApplyLines, Errors, Valid, Numbered, WriteSlots, FormSlots;
    FormLinesWriteSlots(form);
    SettingLinesKeepStore(s, CommandLines(form), FormSlots(form));
    ValidatorIsSoundAndComplete(ApplyLines(s, CommandLines(form)).0.draft);
  }

  // ----- Any interleaving of the two channels --------------------------------------------------------------

  datatype ChannelEvent = SerialLine(line: string) | WebSubmit(form: WebForm)

  function Stepped(s: Session, event: ChannelEvent): Session {
    match event
    case SerialLine(line) => s.Applied(Parsed(line))
    case WebSubmit(form) => Submitted(s, form).0
  }

  function RunChannels(s: Session, events: seq<ChannelEvent>): Session {
    if events == [] then s else Stepped(RunChannels(s, events[..|events| - 1]), events[|events| - 1])
  }

  /** The event is a save the session accepts: typed on the serial line, or ending a submission. */
  predicate Saves(s: Session, event: ChannelEvent) {
    match event
    case SerialLine(line) => Parsed(line).Save? && Errors(s.draft) == []
    case WebSubmit(form) => Submitted(s, form).1 == Rebooting
  }

  /** The store changes only when such a save puts the draft of the moment, a valid one, into it. */
  lemma StoreChangesOnlyBySaving(s: Session, event: ChannelEvent)
    ensures var after := Stepped(s, event);
            if Saves(s, event) then
              Valid(after.draft) && after.stored == after.draft && after.saves == s.saves + [after.draft]
            else after.stored == s.stored && after.saves == s.saves
    ensures Numbered(s.draft) ==> Numbered(Stepped(s, event).draft)
  {
    hide Errors, Valid, Parsed, Submitted, Edited, Numbered;
    match event
    case SerialLine(line) =>
      ValidatorIsSoundAndComplete(s.draft);
      if Numbered(s.draft) {
        EditKeepsNumbers(s.draft, Parsed(line));
      }
    case WebSubmit(form) => SubmissionIsTransactional(s, form);
  }

  lemma EditKeepsNumbers(draft: NodeConfig, command: Command)
    requires command.WellFormed() && Numbered(draft)
    ensures Numbered(Edited(draft, command))
  {
  }

  /** Every configuration saved is valid and numbered, the store holds the last one saved (or what
      was loaded), and the draft is numbered. */
  ghost predicate Safe(loaded: NodeConfig, s: Session) {
    Numbered(s.draft) &&
    (forall k :: 0 <= k < |s.saves| ==> Valid(s.saves[k]) && Numbered(s.saves[k])) &&
    s.stored == if s.saves == [] then loaded else s.saves[|s.saves| - 1]
  }

  lemma StepIsSafe(loaded: NodeConfig, s: Session, event: ChannelEvent)
    requires Safe(loaded, s)
    ensures Safe(loaded, Stepped(s, event))
  {
    hide Valid, Numbered, Stepped, Saves;
    StoreChangesOnlyBySaving(s, event);
  }

  /** Main result: over any run of typed lines and submissions from a loaded configuration with
      its channels numbered, the session stays safe. */
  lemma {:induction false} StoredConfigsAreValid(loaded: NodeConfig, events: seq<ChannelEvent>)
    requires Numbered(loaded)
    ensures Safe(loaded, RunChannels(Session(loaded, loaded, []), events))
  {
    if events != [] {
      hide Safe, Stepped;
      var before, event := events[..|events| - 1], events[|events| - 1];
      StoredConfigsAreValid(loaded, before);
      StepIsSafe(loaded, RunChannels(Session(loaded, loaded, []), before), event);
    }
  }

  // ----- A poll is a run of lines ----------------------------------------------------------------------------

  function TypedLines(lines: seq<string>): seq<ChannelEvent> {
    seq(|lines|, i requires 0 <= i < |lines| => SerialLine(lines[i]))
  }

  lemma {:induction false} RunChannelsFirst(s: Session, event: ChannelEvent, events: seq<ChannelEvent>)
    ensures RunChannels(s, [event] + events) == RunChannels(Stepped(s, event), events)
  {
    hide Stepped;
    var all, n := [event] + events, |events|;
    if n == 0 {
      assert all == [event] && all[..0] == [];
    } else {
      assert all[..n] == [event] + events[..n - 1];
      RunChannelsFirst(s, event, events[..n - 1]);
    }
  }

  lemma {:induction false} LinesAreEvents(s: Session, lines: seq<string>)
    ensures SessionAfter(s, CommandsOf(lines)) == RunChannels(s, TypedLines(lines))
    decreases |lines|
  {
    if lines == [] {
      return;
    }
    var rest := lines[1..];
    EmptyLineIsInvalid();
    assert TypedLines(lines) == [SerialLine(lines[0])] + TypedLines(rest);
    RunChannelsFirst(s, SerialLine(lines[0]), TypedLines(rest));
    LinesAreEvents(s.Applied(Parsed(lines[0])), rest);
    hide Session.Applied, Parsed;
    if lines[0] == "" {
      InvalidChangesNothing(s, EmptyCommand);
      assert CommandsOf(lines) == CommandsOf(rest);
    } else {
      assert CommandsOf(lines) == [Parsed(lines[0])] + CommandsOf(rest);
    }
  }

  lemma InvalidChangesNothing(s: Session, reason: InvalidReason)
    ensures s.Applied(Invalid(reason)) == s
  {
  }

  /** Whatever bytes a poll of the serial port finds, what it does to the session is a run of typed
      lines, so the safety of every run covers whole polls. */
  lemma PollIsTypedLines(st: Serial, stream: string)
    requires !st.rebootRequested && All(st.buffer, NotNewline)
    ensures var lines := Lines(st.buffer + NoReturns(stream));
            st.Polled(stream).0.session == RunChannels(st.session, TypedLines(lines[..Served(lines)]))
  {
    var lines := Lines(st.buffer + NoReturns(stream));
    hide Lines, NoReturns, Served, AsksReboot;
    PollMeetsExpectation(st, stream);
    LinesAreEvents(st.session, lines[..Served(lines)]);
  }

  // ----- Whole polls and submissions, interleaved --------------------------------------------------------------

  /** What happens to the device: bytes arrive and are polled, or a form is posted. */
  datatype DeviceEvent = Poll(arrived: string) | FormPost(form: WebForm)

  /** The serial adapter with the session it shares, and what its port has not yet been read of. */
  datatype Device = Device(serial: Serial, unread: string) {

    /** A posted form edits the session between polls; a partial line stays in the buffer. */
    function After(event: DeviceEvent): Device {
      match event
      case Poll(arrived) =>
        var (next, left) := serial.Polled(unread + arrived);
        Device(next, left)
      case FormPost(form) => this.(serial := serial.(session := Submitted(serial.session, form).0))
    }
  }

  function RunDevice(d: Device, events: seq<DeviceEvent>): Device {
    if events == [] then d else RunDevice(d, events[..|events| - 1]).After(events[|events| - 1])
  }

  lemma {:induction false} PollIsSafe(loaded: NodeConfig, st: Serial, input: string)
    requires Safe(loaded, st.session)
    ensures Safe(loaded, st.Polled(input).0.session)
    decreases |input|
  {
    hide Safe, Serial.HandledLine;
    if input == "" {
    } else if input[0] == '\n' {
      var next := st.HandledLine(st.buffer).(buffer := "");
      LineIsSafe(loaded, st, st.buffer);
      if !next.rebootRequested {
        PollIsSafe(loaded, next, input[1..]);
      }
    } else if input[0] == '\r' {
      PollIsSafe(loaded, st, input[1..]);
    } else {
      PollIsSafe(loaded, st.(buffer := st.buffer + [input[0]]), input[1..]);
    }
  }

  lemma LineIsSafe(loaded: NodeConfig, st: Serial, line: string)
    requires Safe(loaded, st.session)
    ensures Safe(loaded, st.HandledLine(line).session)
  {
    hide Safe, Parsed, Session.Applied;
    StepIsSafe(loaded, st.session, SerialLine(line));
  }

  /** Main result: however bytes arriving in pieces and forms posted between the polls interleave,
      with lines left half-read in the buffer while a form edits the draft, the session stays
      safe. */
  lemma {:induction false} DeviceStoreIsSafe(loaded: NodeConfig, events: seq<DeviceEvent>)
    requires Numbered(loaded)
    ensures var start := Device(Serial("", false, Session(loaded, loaded, []), []), "");
            Safe(loaded, RunDevice(start, events).serial.session)
  {
    if events != [] {
      var start := Device(Serial("", false, Session(loaded, loaded, []), []), "");
      hide Safe, Serial.Polled, Submitted;
      var before, event := RunDevice(start, events[..|events| - 1]), events[|events| - 1];
      DeviceStoreIsSafe(loaded, events[..|events| - 1]);
      match event
      case Poll(arrived) => PollIsSafe(loaded, before.serial, before.unread + arrived);
      case FormPost(form) => StepIsSafe(loaded, before.serial.session, WebSubmit(form));
    }
  }

  // ----- The draft is no transaction -------------------------------------------------------------------------

  /** Main result: a submission, accepted or not, leaves the draft as it was exactly when every
      line before the first refused one keeps it. */
  lemma DraftSurvivesExactlyWhenKept(s: Session, form: WebForm)
    ensures var lines := CommandLines(form);
            Submitted(s, form).0.draft == s.draft <==> AllKeep(s.draft, lines[..Accepted(lines)])
  {
    hide CommandLines, ApplyLines, Errors, WriteSlots, FormSlots, AllKeep, Accepted;
    FormLinesWriteSlots(form);
    DraftReturnsExactlyWhenKept(s, CommandLines(form), FormSlots(form));
  }

  /** And it is refused exactly when one of its lines is or the draft they make is not valid. */
  lemma SubmissionFailsExactlyWhenRefused(s: Session, form: WebForm)
    ensures var lines := CommandLines(form);
            Submitted(s, form).1.Error? <==>
            Accepted(lines) < |lines| || !Valid(ApplyLines(s, lines[..Accepted(lines)]).0.draft)
  {
    hide CommandLines, ApplyLines, Errors, Valid, WriteSlots, FormSlots, Accepted;
    FormLinesWriteSlots(form);
    RefusedLineFails(s, CommandLines(form), FormSlots(form));
    AcceptedLinesApply(s, CommandLines(form), FormSlots(form));
    ValidatorIsSoundAndComplete(ApplyLines(s, CommandLines(form)).0.draft);
  }

  lemma {:induction false} RefusedLineFails(s: Session, lines: seq<string>, slots: seq<int>)
    requires WriteSlots(lines, slots)
    ensures ApplyLines(s, lines).1.Some? <==> Accepted(lines) < |lines|
    decreases |lines|
  {
    if lines != [] {
      WriteSlotsTail(lines, slots);
      if !Parsed(lines[0]).Invalid? {
        RefusedLineFails(s.Applied(Parsed(lines[0])), lines[1..], slots[1..]);
      }
    }
  }

  lemma SampleLinesParse(form: WebForm)
    requires form == WebForm("5", "", "", "h", "", seq(8, _ => BLANK_FIELD))
    ensures Parsed(IdLine(form)) == SetId(5) && Parsed(WifiLine(form)) == SetWifi("", "")
  {
    assert IntText(5) == "5";
    hide Tokens, Render, IntText, ParseTokens;
    IdLineIsWritten(5);
    ParseOfWritten(SetId(5));
    WifiLineTokens("", "");
    QuotedPairTokens("", "");
    KeywordDecides(["wifi", "", ""]);
    assert ["wifi"] + ["", ""] == ["wifi", "", ""];
  }

  lemma NoPortLineFails(form: WebForm)
    requires form == WebForm("5", "", "", "h", "", seq(8, _ => BLANK_FIELD))
    ensures Parsed(BrokerLine(form)) == Invalid(Unrecognized)
  {
    hide Tokens, ParseTokens;
    KeywordsAreBare();
    assert BrokerLine(form) == "broker" + (" " + ("h" + " ")) && " " + "" == " ";
    BareThen("broker", " " + ("h" + " "));
    SpaceThen("h" + " ");
    BareThen("h", " ");
    SpaceThen("");
    NoTokens();
    KeywordDecides(["broker", "h"]);
    assert ["broker"] + (["h"] + []) == ["broker", "h"];
  }

  lemma NoTokens()
    ensures Tokens("") == []
  {
  }

  /** So on the draft a submission is not atomic: a form without a port fails at its third line, and
      the id and the WiFi credentials of the first two lines stand. */
  lemma FailedSubmissionCanChangeDraft(s: Session)
    ensures var form := WebForm("5", "", "", "h", "", seq(8, _ => BLANK_FIELD));
            Submitted(s, form) == (s.(draft := s.draft.(id := 5, wifi := WifiCredentials("", ""))),
                                   Error(CommandError(Unrecognized)))
  {
    hide Parsed, IdLine, WifiLine, BrokerLine, TurnoutLines, AddressLines;
    var form := WebForm("5", "", "", "h", "", seq(8, _ => BLANK_FIELD));
    var lines := CommandLines(form);
    SampleLinesParse(form);
    NoPortLineFails(form);
    assert lines[1..][0] == WifiLine(form) && lines[1..][1..][0] == BrokerLine(form);
    assert ApplyLines(s, lines) == ApplyLines(s.Applied(SetId(5)), lines[1..]);
    assert ApplyLines(s.Applied(SetId(5)), lines[1..]) ==
           ApplyLines(s.Applied(SetId(5)).Applied(SetWifi("", "")), lines[1..][1..]);
  }
}
