/** CommissioningSession.h: the draft configuration that both commissioning channels edit, and
    the guarded save to the store. */
module Sessions {
  import opened NodeConfigs
  import opened Commands

  datatype Reason = CommandError(invalid: InvalidReason) | ConfigErrors(errors: seq<ConfigError>)

  datatype Response = Ok | Saved | Shown(config: NodeConfig) | Rebooting | Error(reason: Reason)

  datatype CommissioningResult = CommissioningResult(response: Response, rebootRequested: bool)

  /** The draft, what the store holds, and every configuration saved so far. */
  datatype Session = Session(draft: NodeConfig, stored: NodeConfig, saves: seq<NodeConfig>) {

    function Applied(command: Command): Session
      requires command.WellFormed()
    {
      if command.Save? then
        if Errors(draft) == [] then Session(draft, draft, saves + [draft]) else this
      else this.(draft := Edited(draft, command))
    }

    function ResultOf(command: Command): CommissioningResult
    {
      match command
      case Show => CommissioningResult(Shown(draft), false)
      case Save =>
        CommissioningResult(if Errors(draft) == [] then Saved else Error(ConfigErrors(Errors(draft))), false)
      case Reboot => CommissioningResult(Rebooting, true)
      case Invalid(reason) => CommissioningResult(Error(CommandError(reason)), false)
      case _ => CommissioningResult(Ok, false)
    }
  }

  /** What a command does to the draft. */
  function Edited(draft: NodeConfig, command: Command): NodeConfig
    requires command.WellFormed()
  {
    match command
    case SetId(id) => draft.(id := id)
    case SetWifi(ssid, password) => draft.(wifi := WifiCredentials(ssid, password))
    case SetBroker(host, port) => draft.(broker := BrokerAddress(host, port))
    case SetTurnout(index, config) => draft.(turnouts := draft.turnouts[index := config])
    case SetLocoNetAddress(index, address) => draft.(addresses := draft.addresses[index := address])
    case _ => draft
  }

  /** The port to persistent memory. */
  class ConfigStore {
    var config: NodeConfig
    var saves: seq<NodeConfig>

    constructor (config: NodeConfig)
      ensures this.config == config && saves == []
    {
      this.config, saves := config, [];
    }

    method Save(config: NodeConfig)
      modifies this
      ensures this.config == config && saves == old(saves) + [config]
    {
      this.config := config;
      saves := saves + [config];
    }

    method Load() returns (c: NodeConfig)
      ensures c == config
    {
      c := config;
    }
  }

  class CommissioningSession {
    const store: ConfigStore
    var draft: NodeConfig

    ghost function Value(): Session
      reads this, store
    {
      Session(draft, store.config, store.saves)
    }

    constructor (store: ConfigStore)
      ensures this.store == store && Value() == Session(store.config, store.config, store.saves)
    {
      this.store := store;
      new;
      draft := store.Load();
    }

    method Apply(command: Command) returns (result: CommissioningResult)
      requires command.WellFormed()
      modifies this, store
      ensures Value() == old(Value()).Applied(command) && result == old(Value()).ResultOf(command)
    {
      match command {
        case SetId(id) =>
          draft := draft.(id := id);
          return CommissioningResult(Ok, false);
        case SetWifi(ssid, password) =>
          draft := draft.(wifi := WifiCredentials(ssid, password));
          return CommissioningResult(Ok, false);
        case SetBroker(host, port) =>
          draft := draft.(broker := BrokerAddress(host, port));
          return CommissioningResult(Ok, false);
        case SetTurnout(index, config) =>
          draft := draft.(turnouts := draft.turnouts[index := config]);
          return CommissioningResult(Ok, false);
        case SetLocoNetAddress(index, address) =>
          draft := draft.(addresses := draft.addresses[index := address]);
          return CommissioningResult(Ok, false);
        case Show =>
          return CommissioningResult(Shown(draft), false);
        case Save =>
          result := ApplySave();
        case Reboot =>
          return CommissioningResult(Rebooting, true);
        case Invalid(reason) =>
          return CommissioningResult(Error(CommandError(reason)), false);
      }
    }

    method ApplySave() returns (result: CommissioningResult)
      modifies store
      ensures Value() == old(Value()).Applied(Save) && result == old(Value()).ResultOf(Save)
    {
      var errors := Validate(draft);
      if errors != [] {
        return CommissioningResult(Error(ConfigErrors(errors)), false);
      }
      store.Save(draft);
      return CommissioningResult(Saved, false);
    }
  }
}
