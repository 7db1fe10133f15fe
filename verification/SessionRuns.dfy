/** What a sequence of commands makes of the draft, told part by part: each part of the
    configuration holds what the last command that sets it says; and what the answers tell. */
module SessionRuns {
  import opened Positions
  import opened NodeConfigs
  import opened Commands
  import opened Sessions
  import opened FormLines
  import opened Serials

  /** The configuration has, in the part the command sets, what the command says. */
  predicate Holds(config: NodeConfig, command: Command)
    requires command.WellFormed()
  {
    match command
    case SetId(id) => config.id == id
    case SetWifi(ssid, password) => config.wifi.ssid == ssid && config.wifi.password == password
    case SetBroker(host, port) => config.broker.host == host && config.broker.port == port
    case SetTurnout(index, turnout) => config.turnouts[index] == turnout
    case SetLocoNetAddress(index, address) => config.addresses[index] == address
    case _ => true
  }

  /** A command sets what it says and leaves every other part alone. */
  lemma EditHolds(draft: NodeConfig, command: Command)
    requires command.WellFormed()
    ensures Holds(Edited(draft, command), command)
    ensures forall slot :: 0 <= slot < 19 && slot != Slot(command) ==> AgreeAt(Edited(draft, command), draft, slot)
  {
  }

  /** The last of the commands that sets this part of the configuration. */
  function LastSetting(commands: seq<Command>, slot: int): (last: Option<Command>)
    requires AllWellFormed(commands)
    ensures last.Some? ==> last.value.WellFormed() && last.value in commands && Slot(last.value) == slot
  {
    if commands == [] then None
    else
      var n := |commands| - 1;
      if Slot(commands[n]) == slot then Some(commands[n]) else LastSetting(commands[..n], slot)
  }

  /** The part holds what the last command to set it says, or is as it was before. */
  predicate PartIsAsSet(before: NodeConfig, after: NodeConfig, commands: seq<Command>, slot: int)
    requires AllWellFormed(commands)
  {
    var last := LastSetting(commands, slot);
    if last.Some? then Holds(after, last.value) else AgreeAt(after, before, slot)
  }

  lemma {:induction false} SessionAfterSnoc(s: Session, commands: seq<Command>, command: Command)
    requires AllWellFormed(commands) && command.WellFormed()
    ensures AllWellFormed(commands + [command])
    ensures SessionAfter(s, commands + [command]) == SessionAfter(s, commands).Applied(command)
    ensures ResponsesTo(s, commands + [command]) ==
            ResponsesTo(s, commands) + [SessionAfter(s, commands).ResultOf(command).response]
    decreases |commands|
  {
    hide Session.Applied, Session.ResultOf;
    var all := commands + [command];
    if commands == [] {
      assert all == [command] && all[1..] == [];
    } else {
      assert all[1..] == commands[1..] + [command] && all[0] == commands[0];
      SessionAfterSnoc(s.Applied(commands[0]), commands[1..], command);
    }
  }

  /** Main result: after any commands at all, each of the nineteen parts of the draft holds what the
      last command to set it says, and those never set are as they were. */
  lemma {:induction false} DraftIsAsLastSet(s: Session, commands: seq<Command>, slot: int)
    requires AllWellFormed(commands) && 0 <= slot < 19
    ensures PartIsAsSet(s.draft, SessionAfter(s, commands).draft, commands, slot)
  {
    if commands == [] {
      return;
    }
    var before, command := commands[..|commands| - 1], commands[|commands| - 1];
    assert commands == before + [command];
    DraftIsAsLastSet(s, before, slot);
    SessionAfterSnoc(s, before, command);
    PartIsAsSetSnoc(s.draft, SessionAfter(s, before).draft, before, command, slot);
  }

  lemma PartIsAsSetSnoc(before: NodeConfig, draft: NodeConfig, commands: seq<Command>, command: Command, slot: int)
    requires AllWellFormed(commands) && command.WellFormed() && 0 <= slot < 19
    requires PartIsAsSet(before, draft, commands, slot)
    ensures AllWellFormed(commands + [command])
    ensures PartIsAsSet(before, Edited(draft, command), commands + [command], slot)
  {
    assert (commands + [command])[..|commands|] == commands;
    EditHolds(draft, command);
    if Slot(command) != slot {
      AgreesHoldTheSame(Edited(draft, command), draft, commands, slot);
    }
  }

  lemma AgreesHoldTheSame(a: NodeConfig, b: NodeConfig, commands: seq<Command>, slot: int)
    requires AllWellFormed(commands) && 0 <= slot < 19 && AgreeAt(a, b, slot)
    ensures var last := LastSetting(commands, slot); last.Some? && Holds(b, last.value) ==> Holds(a, last.value)
  {
  }

  // ----- The answers ----------------------------------------------------------------------------------

  /** What an answer tells of the step it answers. */
  ghost predicate AnswerTells(s: Session, command: Command, answer: CommissioningResult, after: Session)
    requires command.WellFormed()
  {
    (answer.rebootRequested <==> answer.response == Rebooting) &&
    match answer.response
    case Ok => 0 <= Slot(command) && after == s.(draft := after.draft)
    case Saved => command == Save && Valid(s.draft) && after == Session(s.draft, s.draft, s.saves + [s.draft])
    case Shown(config) => command == Show && config == s.draft && after == s
    case Rebooting => command == Reboot && after == s
    case Error(CommandError(reason)) => command == Invalid(reason) && after == s
    case Error(ConfigErrors(errors)) =>
      command == Save && !Valid(s.draft) && errors == Errors(s.draft) && after == s
  }

  /** Each command is answered by what it did: a setting with Ok, a save by Saved exactly when the
      draft was valid and is now stored, a show with the draft, and nothing refused has any effect. */
  lemma AnswersTellWhatHappened(s: Session, command: Command)
    requires command.WellFormed()
    ensures AnswerTells(s, command, s.ResultOf(command), s.Applied(command))
  {
    hide Errors, Valid;
    ValidatorIsSoundAndComplete(s.draft);
  }

  /** Main result: a show after any commands answers the configuration they made: each part as last
      set, whatever has been stored meanwhile. */
  lemma ShowAnswersWhatWasSet(s: Session, commands: seq<Command>)
    requires AllWellFormed(commands)
    ensures AllWellFormed(commands + [Show])
    ensures var answers := ResponsesTo(s, commands + [Show]);
            |answers| == |commands| + 1 && answers[|commands|].Shown? &&
            forall slot :: 0 <= slot < 19 ==> PartIsAsSet(s.draft, answers[|commands|].config, commands, slot)
  {
    hide PartIsAsSet;
    SessionAfterSnoc(s, commands, Show);
    forall slot | 0 <= slot < 19
      ensures PartIsAsSet(s.draft, SessionAfter(s, commands).draft, commands, slot)
    {
      DraftIsAsLastSet(s, commands, slot);
    }
  }
}
