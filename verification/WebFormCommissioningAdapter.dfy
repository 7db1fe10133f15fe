/** WebFormCommissioningAdapter.h: a web form compiled to command lines, applied to the shared
    session, saved and followed by a reboot; and the form that shows the present draft. */
module WebForms {
  import opened Clock
  import opened Positions
  import opened Text
  import opened NodeConfigs
  import opened Commands
  import opened Sessions

  datatype TurnoutField = TurnoutField(pin: string, feedbackPin: string, orientation: string, settleMs: string,
                                       timeoutMs: string, locoNetAddress: string)

  const BLANK_FIELD := TurnoutField("", "", "", "", "", "")

  type TurnoutFields = s: seq<TurnoutField> | |s| == 8 witness seq(8, _ => BLANK_FIELD)

  datatype WebForm = WebForm(nodeId: string, wifiSsid: string, wifiPassword: string, brokerHost: string,
                             brokerPort: string, turnouts: TurnoutFields)

  // ----- From form to command lines ---------------------------------------------------------------

  function IdLine(form: WebForm): string {
    "id " + form.nodeId
  }

  function WifiLine(form: WebForm): string {
    "wifi \"" + form.wifiSsid + "\" \"" + form.wifiPassword + "\""
  }

  function BrokerLine(form: WebForm): string {
    "broker " + form.brokerHost + " " + form.brokerPort
  }

  function TurnoutLine(i: nat, field: TurnoutField): string {
    "turnout " + IntText(i + 1) + " pin " + field.pin + " fb " + field.feedbackPin + " orientation " +
    field.orientation + " settle " + field.settleMs + " timeout " + field.timeoutMs
  }

  function AddressLine(i: nat, field: TurnoutField): string {
    "address " + IntText(i + 1) + " " + if field.locoNetAddress == "" then "0" else field.locoNetAddress
  }

  /** The lines of the first `n` channels; a channel without a pin has no turnout line. */
  function TurnoutLines(fields: TurnoutFields, n: nat): seq<string>
    requires n <= CHANNELS
  {
    if n == 0 then []
    else TurnoutLines(fields, n - 1) +
         if fields[n - 1].pin == "" then [] else [TurnoutLine(n - 1, fields[n - 1])]
  }

  function AddressLines(fields: TurnoutFields, n: nat): seq<string>
    requires n <= CHANNELS
  {
    if n == 0 then [] else AddressLines(fields, n - 1) + [AddressLine(n - 1, fields[n - 1])]
  }

  function CommandLines(form: WebForm): seq<string> {
    [IdLine(form), WifiLine(form), BrokerLine(form)] + TurnoutLines(form.turnouts, CHANNELS) +
    AddressLines(form.turnouts, CHANNELS)
  }

  // ----- From draft to form --------------------------------------------------------------------------

  function FieldOf(turnout: TurnoutConfig, address: int32): TurnoutField {
    var field := BLANK_FIELD.(locoNetAddress := if address != 0 then IntText(address) else "");
    if turnout.outputPin == -1 then field
    else field.(pin := IntText(turnout.outputPin),
                feedbackPin := IntText(turnout.feedbackPin),
                orientation := if turnout.orientation.inverted then "inverted" else "normal",
                settleMs := IntText(turnout.settleDuration),
                timeoutMs := IntText(turnout.movementTimeout))
  }

  function FormOf(config: NodeConfig): WebForm {
    WebForm(if config.id == 0 then "" else IntText(config.id), config.wifi.ssid, config.wifi.password,
            config.broker.host, IntText(config.broker.port),
            seq(CHANNELS, (i: nat) requires i < CHANNELS => FieldOf(config.turnouts[i], config.addresses[i])))
  }

  // ----- Submitting ----------------------------------------------------------------------------------

  /** Applies the lines in order, stopping at the first error. */
  function ApplyLines(s: Session, lines: seq<string>): (Session, Option<Reason>)
    decreases |lines|
  {
    if lines == [] then (s, None)
    else
      var command := Parsed(lines[0]);
      var response := s.ResultOf(command).response;
      if response.Error? then (s.Applied(command), Some(response.reason))
      else ApplyLines(s.Applied(command), lines[1..])
  }

  /** The session after submitting the form, and the response shown. */
  function Submitted(s: Session, form: WebForm): (Session, Response) {
    var (edited, failure) := ApplyLines(s, CommandLines(form));
    if failure.Some? then (edited, Error(failure.value))
    else
      var saved := edited.ResultOf(Save).response;
      if saved.Error? then (edited.Applied(Save), saved)
      else (edited.Applied(Save).Applied(Reboot), edited.Applied(Save).ResultOf(Reboot).response)
  }

  class WebFormCommissioningAdapter {
    const session: CommissioningSession
    var rebootRequested: bool

    constructor (session: CommissioningSession)
      ensures this.session == session && !rebootRequested
    {
      this.session, rebootRequested := session, false;
    }

    /** The applying loop of a submission. */
    method ApplyAll(lines: seq<string>) returns (failure: Option<Reason>)
      modifies session, session.store
      ensures (session.Value(), failure) == ApplyLines(old(session.Value()), lines)
    {
      hide Session.Applied, Session.ResultOf, Parsed;
      ghost var start := session.Value();
      assert lines[0..] == lines;
      for i := 0 to |lines|
        invariant ApplyLines(start, lines) == ApplyLines(session.Value(), lines[i..])
      {
        assert lines[i..][1..] == lines[i + 1..];
        var command := Parse(lines[i]);
        var result := session.Apply(command);
        if result.response.Error? {
          return Some(result.response.reason);
        }
      }
      return None;
    }

    method Submit(form: WebForm) returns (response: Response)
      modifies this, session, session.store
      ensures (session.Value(), response) == Submitted(old(session.Value()), form)
      ensures rebootRequested == (old(rebootRequested) || response == Rebooting)
    {
      hide ApplyLines, CommandLines, Session.Applied;
      var lines := BuildCommandLines(form);
      var failure := ApplyAll(lines);
      if failure.Some? {
        return Error(failure.value);
      }
      var saveResult := session.Apply(Save);
      if saveResult.response.Error? {
        return saveResult.response;
      }
      var rebootResult := session.Apply(Reboot);
      if rebootResult.rebootRequested {
        rebootRequested := true;
      }
      return rebootResult.response;
    }

    method CurrentValues() returns (form: WebForm)
      ensures form == FormOf(session.draft)
    {
      var config := session.draft;
      var fields: TurnoutFields := seq(CHANNELS, _ => BLANK_FIELD);
      for i := 0 to CHANNELS
        invariant forall j :: 0 <= j < CHANNELS ==>
          fields[j] == if j < i then FieldOf(config.turnouts[j], config.addresses[j]) else BLANK_FIELD
      {
        var turnout := config.turnouts[i];
        if config.addresses[i] != 0 {
          fields := fields[i := fields[i].(locoNetAddress := IntText(config.addresses[i]))];
        }
        if turnout.outputPin == -1 {
          continue;
        }
        fields := fields[i := fields[i].(pin := IntText(turnout.outputPin))];
        fields := fields[i := fields[i].(feedbackPin := IntText(turnout.feedbackPin))];
        fields := fields[i := fields[i].(orientation := if turnout.orientation.inverted then "inverted" else "normal")];
        fields := fields[i := fields[i].(settleMs := IntText(turnout.settleDuration))];
        fields := fields[i := fields[i].(timeoutMs := IntText(turnout.movementTimeout))];
      }
      form := WebForm(if config.id == 0 then "" else IntText(config.id), config.wifi.ssid, config.wifi.password,
                      config.broker.host, IntText(config.broker.port), fields);
    }

    static method BuildCommandLines(form: WebForm) returns (lines: seq<string>)
      ensures lines == CommandLines(form)
    {
      lines := [];
      lines := lines + ["id " + form.nodeId];
      lines := lines + ["wifi \"" + form.wifiSsid + "\" \"" + form.wifiPassword + "\""];
      lines := lines + ["broker " + form.brokerHost + " " + form.brokerPort];
      ghost var head := lines;
      for i := 0 to CHANNELS
        invariant lines == head + TurnoutLines(form.turnouts, i)
      {
        var field := form.turnouts[i];
        if field.pin == "" {
          continue;
        }
        lines := lines + ["turnout " + IntText(i + 1) + " pin " + field.pin + " fb " + field.feedbackPin +
                          " orientation " + field.orientation + " settle " + field.settleMs + " timeout " +
                          field.timeoutMs];
      }
      head := lines;
      for i := 0 to CHANNELS
        invariant lines == head + AddressLines(form.turnouts, i)
      {
        var address := form.turnouts[i].locoNetAddress;
        lines := lines + ["address " + IntText(i + 1) + " " + if address == "" then "0" else address];
      }
    }
  }
}
