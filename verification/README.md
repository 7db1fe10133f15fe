# Turnout controller: a verified model

The firmware drives up to eight slow-motion switch machines from one board. It watches a feedback
contact per turnout, reports positions to a broker, and is commissioned over a serial line or a web
form. This project models the hardware-free logic of that firmware in Dafny and proves what it
promises.

Two parts are modelled.

**Turnout control on a wrapping clock.** Every instant is a 32-bit millisecond counter that wraps
after 49.7 days. The model keeps each class as the source has it, on that counter, and sets beside it
what the class means in unbounded true time: a motion machine that carries only the true time it still
waits for (`TrueMotion`), a debouncer defined on the whole history of samples (`Debounced`), broadcast
times with their gaps, a warm-up gate that goes by true elapsed time. A run is a sequence of events at
true times; the class sees each time modulo 2^32. The theorems say exactly when the two agree: the
motion machine, the debouncer and the rebroadcast over runs of any length and any number of wraps, for
an exact range of durations and sampling gaps; the sensor's gate, and with it a whole channel, on the
runs whose ticks stay clear of the stretch of one window that follows each whole turn of the counter.
Node runs are then reduced to eight independent channel runs, so what is proved of a channel holds of
the node, under timing told by its ticks alone.

**Commissioning.** Text lines are tokenised, parsed and applied to a shared draft; a save validates
the draft and stores it. The web form is compiled to such lines and the serial port is cut into them.
The theorems are the round trips of printing and parsing, a grammar that the parser reads exactly, what
any sequence of commands makes of each part of the draft, the faults the validator names, the exact
condition under which submitting the form that shows the draft changes nothing, independence of the serial framing from how bytes are
batched, and the safety of the store over any interleaving of both channels.

How it is laid out: classes of the source that update fields are Dafny classes. Each method's
contract gives the whole new state as a step of a value (`Motion`, `Debounce`, `Feedback`, `Channel`,
`Registry`, `Republish`, `Press`, `Session`, `Serial`), and the lemmas are about runs of those steps.
Ports are small classes: an input pin has a level, an output pin and a reporter keep a log, the store
keeps its content and a log of saves, the serial port holds unread bytes and the responses written.
The clock's reading is a parameter of every method that uses it.

Places where the code does less than its comments or one's first reading suggest, each with the exact
condition under which it does what is wanted:

- A deadline left armed does not stay expired. The signed comparison reads true exactly when the
  lateness is at least -2^31 and, if positive, falls in an even-numbered half of the counter's range
  (`ExpiryIsExactlyReadsTrue`, `StaleDeadlineRevives`).
- The motion machine follows true time exactly when both its durations are at most 2^31 ms. A negative
  number on the command line becomes a longer one, and such a deadline expires in the millisecond it is
  armed (`WrapProofExactlyWhenWrappable`).
- The debouncer is right on all histories with gaps up to G exactly when its window is zero or window
  plus G is at most 2^32 (`DebouncerExactlyWhenWindowFits`).
- The rebroadcast is spaced as intended in every connected stretch with polls up to G apart exactly when
  interval plus G is at most 2^32 (`StretchesSpacedExactlyWhenIntervalFits`).
- The sensor's warm-up gate closes again for `window` ms after every whole turn of the counter since the
  first sample: an observation once available can disappear however closely the contact is sampled,
  exactly when there is a window and time passes (`GateIsTrueOutsideWrap`, `AvailabilityIsNotForEver`).
  The motion machine is told the truth exactly on runs whose ticks are all clear of those stretches
  (`SensedTrulyExactlyWhenClear`), and there channel and node show true time. They do not on every run:
  a contact that drifts away as the counter comes round is not noticed while the sensor is blind
  (`DriftGoesUnnoticed`), so all runs show true time exactly when the window or the gap is zero
  (`TrueTimeExactlyWhenGateNeverCloses`, `NodeTrueTimeExactlyWhenGateNeverCloses`).
- The web form round trip is the identity exactly on the valid, representable drafts
  (`RoundTripExactlyWhenRepresentable`).
- A failed submission leaves the store alone but can change the draft (`FailedSubmissionCanChangeDraft`).
  Any submission leaves the draft as it was exactly when every command line before the first refused one
  keeps it (`DraftSurvivesExactlyWhenKept`).

## Model

| member | source | states |
|---|---|---|
| Clock.SinceIsTrueDifference | lib/McsCore/src/domain/Instant.h:14-17 | subtracting two wrapped instants gives the true difference modulo 2^32, and the difference itself exactly when it lies in [0, 2^32) |
| Positions.OrientationIsBijection | lib/McsCore/src/domain/Orientation.h:19-31 | normal wiring drives High for thrown, inverted wiring the opposite, and the two mappings undo each other |
| Deadlines.Deadline.Arm | lib/McsCore/src/domain/Deadline.h:11-15 | the deadline is armed for the instant one duration ahead, and nothing else is remembered |
| Deadlines.Deadline.Expired | lib/McsCore/src/domain/Deadline.h:22-40 | the query answers the signed-difference test on the armed instant |
| Deadlines.ExpiryIsExactlyReadsTrue | lib/McsCore/src/domain/Deadline.h:22-40 | for every arming time, duration and query time, the 32-bit test agrees with true time if and only if the lateness is in a window where the signed reading is truthful |
| Deadlines.StaleDeadlineRevives | src/main.cpp:222-223 | a deadline never disarmed is expired when due and reads unexpired again 2^31 ms later |
| Motions.TurnoutMotion.CommandTo | lib/McsCore/src/domain/TurnoutMotion.h:22-37 | the method makes exactly the command step of the motion value: no change when at rest at the position, else moving with the movement deadline armed and the settle deadline disarmed |
| Motions.TurnoutMotion.Update | lib/McsCore/src/domain/TurnoutMotion.h:39-79 | the method makes exactly the update step of the motion value in all four states |
| TrueMotions.StepFollows | lib/McsCore/src/domain/TurnoutMotion.h:22-79 | one event keeps the simulation: a pending deadline is armed, is the wrapped image of the true one and lies at most one duration ahead; at rest and faulted the settle deadline is disarmed |
| TrueMotions.RunFollows | lib/McsCore/src/domain/TurnoutMotion.h:11-79 | the simulation holds after every paced run from construction, however often the clock wraps |
| TrueMotions.WrapProofExactlyWhenWrappable | lib/McsCore/src/domain/TurnoutMotion.h:22-95 | every paced run shows what the unbounded-time machine shows, if and only if both durations are at most 2^31 ms |
| MotionRuns.SettledReportsAreJustified | lib/McsCore/src/domain/TurnoutMotion.h:39-95 | a machine reporting Closed or Thrown either never left its initial rest, or observed that position after the last command that moved it, and entered rest at least the settle duration of true time later |
| MotionRuns.MovementIsResolvedInTime | lib/McsCore/src/domain/TurnoutMotion.h:33-62 | with update gaps at most G and no further command, a started movement reaches rest or fault within timeout + settle + 2G of true time |
| MotionRuns.MovingIsWithinTimeout | lib/McsCore/src/domain/TurnoutMotion.h:43-54 | whenever the machine is moving, every update since the command that aimed it came before that command's timeout: moving never survives an update at or past its deadline |
| Debouncers.Debouncer.Sample | lib/McsCore/src/domain/Debouncer.h:18-30 | the method makes exactly the sampling step of the debounce value |
| DebounceHistory.DebouncedIsLatestSteady | lib/McsCore/src/domain/Debouncer.h:18-35 | the history's answer is the level of the latest sample that ends a run of equal samples spanning the window |
| DebounceHistory.DebouncedKeepsInitial | lib/McsCore/src/domain/Debouncer.h:10-16 | with no such sample the history's answer is the initial level |
| DebounceHistory.DebounceTracks | lib/McsCore/src/domain/Debouncer.h:18-30 | the stored instant is the start of the present run whenever it would still be consulted, so a stale instant never decides |
| DebounceHistory.DebouncerExactlyWhenWindowFits | lib/McsCore/src/domain/Debouncer.h:18-35 | with samples at most G ms apart the incremental debouncer gives the history's answer on every history, if and only if the window is zero or window + G is at most 2^32 |
| FeedbackSensors.FeedbackSensor.Sample | lib/McsCore/src/domain/FeedbackSensor.h:21-36 | the method makes exactly the sampling step of the sensor value with the level the contact stands at |
| FeedbackSensors.FeedbackSensor.Observed | lib/McsCore/src/domain/FeedbackSensor.h:38-51 | the query answers the sensor value's observation |
| FeedbackSensors.SensorObservesHistory | lib/McsCore/src/domain/FeedbackSensor.h:21-51 | a sensor sampled often enough observes exactly its contact's debounced history as a position, behind a gate that goes by elapsed time modulo 2^32 |
| FeedbackSensors.GateIsTrueOutsideWrap | lib/McsCore/src/domain/FeedbackSensor.h:45-48 | the gate on the counter agrees with a gate on true elapsed time if and only if that time is below 2^32 or at least a window past a whole turn of the counter |
| FeedbackSensors.ObservationIsTrueOutsideWrap | lib/McsCore/src/domain/FeedbackSensor.h:38-51 | the observation behind the counter's gate equals the one behind the true gate under exactly that condition |
| FeedbackSensors.AvailabilityIsNotForEver | lib/McsCore/src/domain/FeedbackSensor.h:45-48 | for every bound on the sampling gap, some history sampled within it makes an observation disappear again, if and only if the window and the bound are both positive |
| Turnouts.Turnout.MoveTo | lib/McsCore/src/domain/Turnout.h:34-38 | the pin is written the position's level and the motion machine is commanded, nothing else changes |
| Turnouts.Turnout.Tick | lib/McsCore/src/domain/Turnout.h:40-51 | the channel samples, updates and reports its state if and only if it differs from the last reported, and the reporter's log grows by just that |
| Turnouts.Turnout.ReportCurrent | lib/McsCore/src/domain/Turnout.h:53-58 | the present state is reported and remembered as last reported |
| TurnoutRuns.ChannelRunsSensedEvents | lib/McsCore/src/domain/Turnout.h:34-51 | sensor and motion machine together are the motion machine run on the commands given and the contact's debounced history, behind the warm-up gate as the counter tells it, modulo 2^32 |
| ChannelTrueTime.SensedTrulyExactlyWhenClear | lib/McsCore/src/domain/Turnout.h:40-43 | over any sampled run, the motion machine receives what it would receive behind a gate on true elapsed time, if and only if every tick's time since the first is below 2^32 or at least a window past a whole turn |
| ChannelTrueTime.ChannelFollowsTrueTime | lib/McsCore/src/domain/Turnout.h:34-51 | on every run whose ticks are so clear of the counter's turns, a whole channel on the 32-bit clock shows what the unbounded machine shows on the contact's debounced history behind a gate on true elapsed time |
| ChannelTrueTime.DriftGoesUnnoticed | lib/McsCore/src/domain/FeedbackSensor.h:45-48 | a concrete run, sampled every millisecond, on which the channel still shows rest when true time has found its contact gone |
| ChannelTrueTime.TrueTimeExactlyWhenGateNeverCloses | lib/McsCore/src/domain/Turnout.h:34-51 | with both durations at most 2^31 and the window zero or window + G at most 2^32, all runs sampled within G ms show true time, if and only if the window or G is zero |
| TurnoutRuns.ReportsMirrorStates | lib/McsCore/src/domain/Turnout.h:40-58 | over any run, the reports with repeats collapsed are the states with repeats collapsed, and the last report is the last state shown |
| TurnoutRuns.TickReportsExactlyChanges | lib/McsCore/src/domain/Turnout.h:40-51 | after any run, a tick reports if and only if the state it leaves differs from the last state reported, and then that state |
| TurnoutRuns.ReportsAreTheChanges | lib/McsCore/src/domain/Turnout.h:40-51 | without forced reports the report stream itself is the state sequence without its repeats: every change once, nothing repeated |
| TurnoutRuns.OutputMatchesTarget | lib/McsCore/src/domain/Turnout.h:34-38 | the machine aims at the last position commanded and the pin was last written that position's level; a channel never commanded never writes its pin |
| TurnoutRuns.PinLogIsTheCommands | lib/McsCore/src/domain/Turnout.h:34-38 | the pin's whole log is one write per command, in order, High exactly for thrown on normal wiring and for closed on inverted wiring |
| TurnoutRuns.EchoesAreQuiescent | lib/McsCore/src/domain/TurnoutMotion.h:24-31 | a channel at rest at p that has reported it never stirs and no tick reports while every command is p and every observation is absent or p, at any times at all |
| Registries.TurnoutRegistry.Command | lib/McsCore/src/domain/TurnoutRegistry.h:24-41 | the method makes exactly the command step of the registry value, with truncating division and remainder |
| Registries.TurnoutRegistry.Tick | lib/McsCore/src/domain/TurnoutRegistry.h:43-58 | the method hands over every waiting command, empties the slots, ticks all eight channels with their contacts' levels and logs their reports in channel order |
| Registries.TurnoutRegistry.ReportAll | lib/McsCore/src/domain/TurnoutRegistry.h:60-66 | every channel reports its present state once, in channel order |
| RegistryRuns.CommandReachesItsChannelOnly | lib/McsCore/src/domain/TurnoutRegistry.h:24-41 | an id is accepted exactly when it is nodeId * 100 + c with c in 1-8, and then fills that channel's slot alone; a negative node id accepts nothing |
| RegistryRuns.AddressesAreDisjoint | lib/McsCore/src/adapters/ControllerNode.h:98-101 | no id addresses two nodes or two channels |
| RegistryRuns.ChannelsAreIndependent | lib/McsCore/src/domain/TurnoutRegistry.h:24-66 | after any node run each channel is as if it alone had lived through the latest command addressed to it before each tick, the ticks and the forced reports |
| RegistryRuns.CommandsCoalesce | lib/McsCore/src/domain/TurnoutRegistry.h:24-52 | two bursts of commands that leave each channel the same latest command have the same effect, whatever else they contain and in any order |
| RegistryRuns.ReportsAreIndependent | lib/McsCore/src/domain/TurnoutRegistry.h:54-66 | what the node reports under a channel's id is exactly what the channel alone reports |
| RegistryRuns.NodeAgrees | lib/McsCore/src/domain/TurnoutRegistry.h:43-66 | over any run a channel's collapsed reports are its collapsed states after each tick (its initial state first if a forced report precedes every tick); after a tick nothing waits, the last report is the present state, and a commanded pin stands at its target's level |
| RegistryRuns.NodeTickReportsExactlyChanges | lib/McsCore/src/domain/TurnoutRegistry.h:54-57 | after any node run, a tick reports a channel if and only if its state differs from the last one reported under its id |
| RegistryRuns.NodeReportsAreTheChanges | lib/McsCore/src/domain/TurnoutRegistry.h:43-58 | without forced reports the log under a channel's id is its states after each tick without repeats, itself free of repeats |
| RegistryRuns.EventReportsInOrder | lib/McsCore/src/domain/TurnoutRegistry.h:54-66 | the reports of one tick or forced report come in ascending order of channels, at most one each |
| NodeTrueTime.CloseTicksAreInTime | lib/McsCore/src/domain/TurnoutRegistry.h:43-58 | node ticks that never go back and come at most G < 2^31 ms apart, with window + G at most 2^32, keep the timing the node results ask for, for every channel and whatever is commanded |
| NodeTrueTime.NodeFollowsTrueTime | lib/McsCore/src/domain/TurnoutRegistry.h:24-66 | each channel of a node kept in time shows what true time says it should, whatever the other channels do and however often the clock wraps, as long as every tick is clear of the stretch of one window after each whole turn of the counter |
| NodeTrueTime.NodeTrueTimeExactlyWhenGateNeverCloses | lib/McsCore/src/domain/TurnoutRegistry.h:24-66 | under the same bounds and G < 2^31, all runs of a node with ticks at most G ms apart show true time on a channel, if and only if its window or G is zero |
| NodeTrueTime.NodeSettledReportsAreJustified | lib/McsCore/src/domain/TurnoutRegistry.h:43-58 | a channel the node last reported settled has never moved, or has its contact's debounced word for it, a settle time old, from after the last command that moved it |
| NodeResponses.CommandIsAnsweredInTime | lib/McsCore/src/domain/TurnoutRegistry.h:43-58 | with ticks at most G ms apart, once a tick hands a channel its command and no other follows, the node has reported it settled where it was sent or in an unknown state within timeout + settle + 2G of true time |
| Republishers.PeriodicPositionRepublisher.Update | lib/McsCore/src/domain/PeriodicPositionRepublisher.h:18-32 | the method makes exactly the polling step and asks for a broadcast if and only if the step says so |
| Republishers.StretchIsSpaced | lib/McsCore/src/domain/PeriodicPositionRepublisher.h:7-32 | every connected stretch begins with a broadcast, later ones are at least an interval and less than an interval plus a poll gap apart, and no poll finds the last one an interval old |
| Republishers.StretchesSpacedExactlyWhenIntervalFits | lib/McsCore/src/domain/PeriodicPositionRepublisher.h:18-32 | every connected stretch with polls at most G ms apart is so spaced, if and only if interval + G is at most 2^32 |
| Republishers.StretchBroadcastsAreFew | lib/McsCore/src/domain/PeriodicPositionRepublisher.h:18-32 | a connected stretch of length L has at most 1 + L / interval broadcasts |
| Republishers.DisconnectionStartsAfresh | lib/McsCore/src/domain/PeriodicPositionRepublisher.h:18-32 | a disconnected poll never broadcasts, and what follows it broadcasts as a fresh stretch, so the results hold across reconnects |
| Republishers.NoIntervalBroadcastsEveryPoll | lib/McsCore/src/domain/PeriodicPositionRepublisher.h:18-32 | with an interval of zero every connected poll broadcasts and no other |
| Buttons.ButtonSetupModeTrigger.Poll | lib/McsCore/src/adapters/ButtonSetupModeTrigger.h:30-49 | a request is raised exactly at the release of a hold measured at least the minimum; told of the samples that led there, at the first High after a Low whose true hold modulo 2^32 is at least the minimum |
| Buttons.ButtonIdentifyRequestTrigger.Poll | lib/McsCore/src/adapters/ButtonIdentifyRequestTrigger.h:18-37 | a request is raised exactly at the release of a press measured between the two bounds, told of the samples in the same way |
| Buttons.TriggersMeasureTheHold | lib/McsCore/src/adapters/ButtonSetupModeTrigger.h:26-49 | over any samples a release is seen exactly at the first High after a Low, measured from the first Low of that press modulo 2^32, and the two triggers never both fire when the longest press is below the shortest hold |
| Buttons.SetupRequestedExactly | lib/McsCore/src/adapters/ButtonSetupModeTrigger.h:30-49 | over any samples a poll asks for setup mode if and only if it is the first High after a Low and the hold's true milliseconds modulo 2^32 are at least the minimum |
| Buttons.IdentifyRequestedExactly | lib/McsCore/src/adapters/ButtonIdentifyRequestTrigger.h:18-37 | over any samples a poll asks to identify if and only if it is the first High after a Low and the press's true milliseconds modulo 2^32 are within both bounds |
| BlinkPatterns.BlinkOutShowsId | lib/McsCore/src/domain/BlinkOutIdentifier.h:15-30 | every full cycle is the id in on/off pulses and then the pause, lit id * on ms and coming on id times, when nothing in the arithmetic wraps |
| BlinkPatterns.FlashBurstIsOneTrain | lib/McsCore/src/domain/FlashBurst.h:18-31 | a burst is exactly its count of pulses and dark from then on |
| NodeConfigs.Validate | lib/McsCore/src/domain/NodeConfig.h:123-153 | the validator finds no error if and only if the configuration is valid, and lists the errors of the specification in order |
| NodeConfigs.ValidateAddresses | lib/McsCore/src/domain/NodeConfig.h:167-202 | the address loops list one error per out-of-range channel and per pair sharing an address |
| NodeConfigs.ValidatorIsSoundAndComplete | lib/McsCore/src/domain/NodeConfig.h:123-202 | no errors if and only if the id is in 1-16, wired pins are pairwise distinct over all sixteen uses, and nonzero addresses are in 1-2048 and pairwise distinct |
| NodeConfigs.ValidatorCounts | lib/McsCore/src/domain/NodeConfig.h:132-202 | pin errors number wired uses minus distinct pins; address errors number out-of-range channels plus pairs of channels sharing an in-range address |
| ConfigErrorLists.ErrorsAreExactlyTheFaults | lib/McsCore/src/domain/NodeConfig.h:123-202 | an error is listed if and only if the configuration has the fault it names: id outside 1-16, that pin at two uses, that channel's address neither 0 nor in 1-2048, those two channels in that order sharing that address in 1-2048 |
| ConfigErrorLists.ErrorsInOrder | lib/McsCore/src/domain/NodeConfig.h:123-202 | the id error comes first, then one error per repeated use of a pin in the order the uses are met, then address errors by channel and by the channel shared with |
| Text.ParseIntOfParts | lib/McsCore/src/domain/CommandLineParser.h:111-123 | leading space, an optional sign and digits are read as their value if it fits an int, else refused |
| Text.ParseIntAcceptsOnlyParts | lib/McsCore/src/domain/CommandLineParser.h:111-123 | nothing of another shape is accepted |
| Text.ParseIntOfIntText | lib/McsCore/src/domain/CommandLineParser.h:111-123 | printing an integer and parsing it back gives it when it fits an int and is refused when it does not |
| Text.DigitsArePaddedText | lib/McsCore/src/adapters/WebFormCommissioningAdapter.h:56-78 | every digit string is its value as printed behind some zeros, so printing is the one writing without leading zeros |
| Tokenising.Tokenize | lib/McsCore/src/domain/CommandLineParser.h:66-109 | the index loops end on every line with the tokens of the specification |
| Tokenising.TokensOfRender | lib/McsCore/src/domain/CommandLineParser.h:66-109 | tokenising space-joined words, each bare or quoted, gives the words back |
| Tokenising.TokenSequencesAreTheReadable | lib/McsCore/src/domain/CommandLineParser.h:66-109 | the token sequences of lines are exactly those of tokens that are bare words or free of quotes, and every line has the tokens of its normal form |
| Tokenising.SpreadWordsReadBack | lib/McsCore/src/domain/CommandLineParser.h:66-109 | words spread over a line by any runs of the six space characters read back, and a quotation never closed is one more token, all that follows it |
| Tokenising.OnlyGapsAreSkipped | lib/McsCore/src/domain/CommandLineParser.h:72-75 | of all single characters but the quote, exactly the six space characters make no token |
| Commands.Parse | lib/McsCore/src/domain/CommandLineParser.h:18-63 | any line is read as the parsed command of its tokens, whose channel index is one of eight and whose turnout number is the channel's own |
| Commands.ParseSetTurnout | lib/McsCore/src/domain/CommandLineParser.h:161-199 | whatever the tokens, a turnout command names one of the eight channels and carries that channel's number |
| Commands.ParseSetLocoNetAddress | lib/McsCore/src/domain/CommandLineParser.h:145-159 | whatever the tokens, an address command names one of the eight channels |
| Commands.ParseOfTurnoutTokens | lib/McsCore/src/domain/CommandLineParser.h:161-199 | a printed turnout line is read back under the channel's number exactly when its durations fit an int, else refused |
| Commands.ParseOfWritten | lib/McsCore/src/domain/CommandLineParser.h:18-199 | every well-formed command that can be written is read back from its line |
| CommandGrammar.ParserReadsExactlyTheGrammar | lib/McsCore/src/domain/CommandLineParser.h:18-199 | tokens are parsed as a command if and only if they are a way to write it: the keyword, the number of words, the five words of a turnout line in place, texts that read as the integers, a channel in 1-8, normal or inverted |
| CommandGrammar.RefusedExactlyOutsideTheGrammar | lib/McsCore/src/domain/CommandLineParser.h:18-63 | tokens are refused if and only if they write no command, and none write two |
| CommandGrammar.RefusalNamesTheFault | lib/McsCore/src/domain/CommandLineParser.h:18-199 | the reason given is the first fault the tokens have, in the order the parser looks |
| Sessions.CommissioningSession.Apply | lib/McsCore/src/domain/CommissioningSession.h:36-74 | the method makes exactly the session's step for the command and answers its response |
| Sessions.CommissioningSession.ApplySave | lib/McsCore/src/domain/CommissioningSession.h:77-96 | the draft is stored if and only if the validator finds no error, else the errors are answered and nothing changes |
| SessionRuns.DraftIsAsLastSet | lib/McsCore/src/domain/CommissioningSession.h:36-74 | after any commands each of the nineteen parts of the draft holds what the last command to set it says, and parts never set are as they were |
| SessionRuns.AnswersTellWhatHappened | lib/McsCore/src/domain/CommissioningSession.h:36-96 | each answer tells what its command did: Ok of a setting, Saved exactly of a save of a valid draft now stored, the draft for a show, a refusal of no effect with its reason or the draft's errors |
| SessionRuns.ShowAnswersWhatWasSet | lib/McsCore/src/domain/CommissioningSession.h:60-61 | a show after any commands answers the configuration they made, each part as last set, whatever has been stored |
| WebForms.WebFormCommissioningAdapter.Submit | lib/McsCore/src/adapters/WebFormCommissioningAdapter.h:19-44 | the lines are applied up to the first error, then saved, then a reboot is asked for; the flag is raised exactly by that answer |
| WebForms.WebFormCommissioningAdapter.CurrentValues | lib/McsCore/src/adapters/WebFormCommissioningAdapter.h:51-82 | the form shown is that of the draft, with blank fields for channels without a pin |
| WebForms.WebFormCommissioningAdapter.BuildCommandLines | lib/McsCore/src/adapters/WebFormCommissioningAdapter.h:90-120 | the lines are those of the specification: id, wifi, broker, one per wired channel, one address per channel |
| WebRoundTrips.WifiKeeps | lib/McsCore/src/adapters/WebFormCommissioningAdapter.h:94 | the wifi line of a shown draft keeps the draft if and only if neither SSID nor password holds a quote |
| WebRoundTrips.BrokerKeeps | lib/McsCore/src/adapters/WebFormCommissioningAdapter.h:95 | the broker line keeps the draft if and only if the host is one bare word |
| WebRoundTrips.TurnoutKeeps | lib/McsCore/src/adapters/WebFormCommissioningAdapter.h:97-111 | a wired channel's line keeps the draft if and only if the channel has its own number and its durations fit an int |
| FormLines.ReturningLinesKeep | lib/McsCore/src/adapters/WebFormCommissioningAdapter.h:23-30 | if lines that write different parts of the draft return it unchanged, each of them kept it |
| FormLines.FormLinesWriteSlots | lib/McsCore/src/adapters/WebFormCommissioningAdapter.h:90-120 | whatever text a form's fields hold, each of its lines is refused or sets its own part of the configuration: id, wifi, broker, channel i of turnout line i, address i of address line i |
| FormLines.DraftReturnsExactlyWhenKept | lib/McsCore/src/adapters/WebFormCommissioningAdapter.h:23-30 | lines that write different parts leave the draft as it was, if and only if each line before the first refused one keeps it |
| WebRoundTrips.RoundTripExactlyWhenRepresentable | lib/McsCore/src/adapters/WebFormCommissioningAdapter.h:19-82 | submitting the form that shows the draft reboots, keeps the draft and stores exactly it, if and only if the draft is valid and representable |
| FormReaches.SubmissionReachesTheForm | lib/McsCore/src/adapters/WebFormCommissioningAdapter.h:19-82 | from any session, submitting the form of any representable configuration makes the draft its id, credentials, broker, addresses and wired channels, keeps the other channels, and stores it and reboots if and only if that draft is valid |
| FormReaches.ShownFieldReads | lib/McsCore/src/adapters/WebFormCommissioningAdapter.h:51-82 | a wired channel's fields read as its values, an unwired one's are blank, and an address field is blank exactly for address 0 |
| FormLines.KeywordLineSets | lib/McsCore/src/domain/CommandLineParser.h:27-62 | a line that opens with a setting keyword sets what that keyword sets or is refused, whatever follows, so no form field can cause a save or a reboot |
| CommissioningSafety.SubmissionIsTransactional | lib/McsCore/src/adapters/WebFormCommissioningAdapter.h:19-44 | for any form, either the answer is a reboot and exactly the final valid draft was saved, or it is an error and the store is as it was |
| CommissioningSafety.StoreChangesOnlyBySaving | lib/McsCore/src/domain/CommissioningSession.h:77-96 | the store changes only by a successful save of the draft of the moment |
| CommissioningSafety.StoredConfigsAreValid | lib/McsCore/src/domain/CommissioningSession.h:36-96 | over any interleaving of typed lines and submissions every saved configuration is valid, the store holds the last one saved, and turnout i keeps the id i + 1 |
| CommissioningSafety.DeviceStoreIsSafe | src/main.cpp:242-257 | the same over any interleaving of whole polls, which keep partial lines in the buffer and unread bytes in the port, with submitted forms that edit the same session |
| CommissioningSafety.PollIsTypedLines | lib/McsCore/src/adapters/SerialCommissioningAdapter.h:18-63 | whatever bytes a poll finds, what it does to the session is a run of typed lines, so store safety covers whole polls |
| CommissioningSafety.DraftSurvivesExactlyWhenKept | lib/McsCore/src/adapters/WebFormCommissioningAdapter.h:19-44 | for any session and form, the draft after a submission is the draft before it, if and only if every command line before the first refused one keeps it |
| CommissioningSafety.SubmissionFailsExactlyWhenRefused | lib/McsCore/src/adapters/WebFormCommissioningAdapter.h:19-44 | a submission answers with an error if and only if one of its lines is refused or the draft its lines make is not valid |
| CommissioningSafety.FailedSubmissionCanChangeDraft | lib/McsCore/src/adapters/WebFormCommissioningAdapter.h:23-30 | a concrete form whose submission fails after its first lines have changed the draft |
| Serials.SerialCommissioningAdapter.Poll | lib/McsCore/src/adapters/SerialCommissioningAdapter.h:18-39 | the method serves the port's bytes as the specification of a poll says and leaves the rest unread |
| Serials.SerialCommissioningAdapter.HandleLine | lib/McsCore/src/adapters/SerialCommissioningAdapter.h:47-63 | a line that is not empty is parsed, applied and answered once; an empty one does nothing |
| Serials.LinesOfTerminated | lib/McsCore/src/adapters/SerialCommissioningAdapter.h:24-37 | cutting newline-terminated lines gives the lines and the trailing piece back |
| Serials.PollMeetsExpectation | lib/McsCore/src/adapters/SerialCommissioningAdapter.h:18-63 | a poll feeds the session exactly the commands of the stream's non-empty lines in order, one response each, keeps the trailing partial line, and reads nothing after the first rebooting line |
| Serials.ChunkingIsIrrelevant | lib/McsCore/src/adapters/SerialCommissioningAdapter.h:18-39 | however the stream is cut into poll batches, up to the first reboot the outcome is that of one poll of the whole stream |
| SetupForms.EscapeHtml | lib/McsCore/src/domain/SetupFormRenderer.h:73-101 | the escaped text is safe to embed in an attribute and reads back as the original |
| SetupForms.EscapingIsInvertible | lib/McsCore/src/domain/SetupFormRenderer.h:73-101 | a left-to-right reader of the five references (section 13.1.4 of the WHATWG HTML Standard) returns the original, so escaping is injective |
| SetupForms.SafeTextsAreTheEscaped | lib/McsCore/src/domain/SetupFormRenderer.h:70-101 | a text has no angle bracket or quote and only ampersands that open a reference, if and only if it is the escape of what it reads as |
| SetupForms.EscapedCharByChar | lib/McsCore/src/domain/SetupFormRenderer.h:73-101 | escaping goes character by character: five named references, all else unchanged |
| SetupForms.SplitIpv4Octets | lib/McsCore/src/domain/SetupFormRenderer.h:18-68 | the loops return the four parts of a dotted quad and four empty parts for anything else |
| SetupForms.SplitOfJoin | lib/McsCore/src/adapters/CaptivePortalServer.h:66-70 | splitting the portal's join of four octets gives them back |
| SetupForms.JoinOfSplit | lib/McsCore/src/domain/SetupFormRenderer.h:18-68 | the split succeeds exactly on the dotted quads, and joining its parts gives the host back |
| SetupForms.OctetsAreSmallNumbers | lib/McsCore/src/domain/SetupFormRenderer.h:48-65 | a part is accepted if and only if it is a printed number from 0 to 255, padded with zeros to at most three digits |
| SetupForms.SplitsExactlyNumbersTo255 | lib/McsCore/src/domain/SetupFormRenderer.h:18-68 | the join of four printed numbers is split into them if and only if each is at most 255 |

## Left out

- ESP32 and Arduino adapters, NVS, WiFi, MQTT, DNS and HTTP: hardware and network. The store is a cell that returns what was saved, and a loaded configuration is taken to have turnout i with id i + 1, as `NvsConfigStore::load` gives it.
- `GatedCommandSink`, `Loco2MqttCommandSource`, `NodeIdentityGate`, presence announcing: the headers they rest on (`MqttLink`, `NodeIdentityGuard`, `Loco2MqttStateSource`) are not part of this model.
- `src/main.cpp` loop and LED priority: composition only.
- `formatShow`, `PayloadCodec`, `PositionTopic`, `SetupApName`, `MacAddress`, `BootModeSelector`, `SteadyBlinker`, plain getters: each is settled by reading one branch. A `show` answers with the draft itself.
- Rendering of the setup page beyond `escapeHtml` and `splitIpv4Octets`, and with it the defaults the page fills into blank fields: user interface text. The round trip is of the adapter's own form, not of a form edited in a browser.
- Message wording: errors are tags; only the distinction between an error and other answers matters to the code.
- std::optional<Debouncer>: the debouncer lives in place beside a flag, and constructing it in the optional is re-initialising it in place.
- Characters are Dafny characters where the source has bytes; whitespace and digits are those of the C locale.
- The inner loops of the tokeniser, of the validator's pin check, of the registry's tick and of the IPv4 split are methods of their own, called by the outer loop.
