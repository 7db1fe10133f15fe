/** Turnout.h: one channel, tying output pin, feedback sensor, motion machine and reports. */
module Turnouts {
  import opened Clock
  import opened Positions
  import opened Motions
  import opened FeedbackSensors

  /** One message to the position reporter. */
  datatype Report = StateReport(id: int, state: TurnoutState)

  /** The output port: everything ever written to the pin. */
  class DigitalOutput {
    var writes: seq<Level>

    constructor ()
      ensures writes == []
    {
      writes := [];
    }

    method Write(level: Level)
      modifies this
      ensures writes == old(writes) + [level]
    {
      writes := writes + [level];
    }
  }

  /** The reporting port shared by all channels: everything ever reported. */
  class PositionReporter {
    var log: seq<Report>

    constructor ()
      ensures log == []
    {
      log := [];
    }

    method Report(id: int, state: TurnoutState)
      modifies this
      ensures log == old(log) + [StateReport(id, state)]
    {
      log := log + [StateReport(id, state)];
    }
  }

  /** The state of one channel. */
  datatype Channel = Channel(id: int, orientation: Orientation, sensor: Feedback, motion: Motion,
                             writes: seq<Level>, lastReported: Option<TurnoutState>)
  {
    function MovedTo(position: Position, now: Instant): Channel {
      this.(writes := writes + [orientation.ToLevel(position)], motion := motion.CommandTo(position, now))
    }

    function Ticked(level: Level, now: Instant): Channel {
      var sensor' := sensor.Sampled(level, now);
      var motion' := motion.Updated(sensor'.Observed(), now);
      this.(sensor := sensor', motion := motion', lastReported := Some(motion'.State()))
    }

    /** What that tick tells the reporter. */
    function TickReports(level: Level, now: Instant): seq<TurnoutState> {
      var state := Ticked(level, now).motion.State();
      if lastReported == Some(state) then [] else [state]
    }

    function ReportedCurrent(): Channel {
      this.(lastReported := Some(motion.State()))
    }
  }

  function NewChannel(id: int, orientation: Orientation, window: Duration, initial: Position, timing: Timing): Channel {
    Channel(id, orientation, NewFeedback(orientation, window), NewMotion(initial, timing), [], None)
  }

  function Labelled(id: int, states: seq<TurnoutState>): seq<Report> {
    seq(|states|, i requires 0 <= i < |states| => StateReport(id, states[i]))
  }

  class Turnout {
    const id: int
    const output: DigitalOutput
    const orientation: Orientation
    const sensor: FeedbackSensor
    const motion: TurnoutMotion
    const reporter: PositionReporter
    var lastReportedState: Option<TurnoutState>

    ghost function Repr(): set<object> {
      {this, output} + sensor.Repr() + motion.Repr()
    }

    ghost predicate Valid() {
      motion.Valid() &&
      {this, output} !! sensor.Repr() !! motion.Repr() &&
      sensor.input !in Repr() && reporter !in Repr()
    }

    ghost function Value(): Channel
      reads Repr()
    {
      Channel(id, orientation, sensor.Value(), motion.Value(), output.writes, lastReportedState)
    }

    constructor (id: int, output: DigitalOutput, orientation: Orientation, sensor: FeedbackSensor,
                 motion: TurnoutMotion, reporter: PositionReporter)
      requires motion.Valid() && sensor.Repr() !! motion.Repr()
      requires output !in sensor.Repr() + motion.Repr()
      requires sensor.input !in {output} + sensor.Repr() + motion.Repr()
      requires reporter !in {output} + sensor.Repr() + motion.Repr()
      ensures Valid() && fresh(Repr() - {output} - sensor.Repr() - motion.Repr())
      ensures this.sensor == sensor && this.motion == motion && this.output == output && this.reporter == reporter
      ensures Value() == Channel(id, orientation, sensor.Value(), motion.Value(), output.writes, None)
    {
      this.id, this.output, this.orientation := id, output, orientation;
      this.sensor, this.motion, this.reporter := sensor, motion, reporter;
      lastReportedState := None;
    }

    method MoveTo(position: Position, now: Instant)
      requires Valid()
      modifies Repr()
      ensures Value() == old(Value()).MovedTo(position, now)
    {
      output.Write(orientation.ToLevel(position));
      motion.CommandTo(position, now);
    }

    method Tick(now: Instant)
      requires Valid()
      modifies Repr(), reporter
      ensures Value() == old(Value()).Ticked(old(sensor.input.level), now)
      ensures reporter.log == old(reporter.log) + Labelled(id, old(Value()).TickReports(old(sensor.input.level), now))
    {
      sensor.Sample(now);
      var observed := sensor.Observed();
      assert motion.Value() == old(motion.Value());
      motion.Update(observed, now);
      var current := motion.State();
      if lastReportedState != Some(current) {
        reporter.Report(id, current);
        lastReportedState := Some(current);
      }
    }

    method ReportCurrent()
      requires Valid()
      modifies Repr(), reporter
      ensures Value() == old(Value()).ReportedCurrent()
      ensures reporter.log == old(reporter.log) + [StateReport(id, old(Value()).motion.State())]
    {
      var current := motion.State();
      reporter.Report(id, current);
      lastReportedState := Some(current);
    }
  }
}
