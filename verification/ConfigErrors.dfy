/** Which errors the validator lists: exactly the faults the configuration has, each naming its pin,
    channel or pair of channels, and in which order. */
module ConfigErrorLists {
  import opened Clock
  import opened NodeConfigs

  // ----- Errors about pins --------------------------------------------------------------------

  /** Uses of pins already used, ascending, among the first `n`. */
  ghost predicate RepeatedUses(uses: seq<nat>, pins: seq<int>, n: nat)
    requires n <= |pins|
  {
    (forall k :: 0 <= k < |uses| ==> uses[k] < n) &&
    (forall j, k :: 0 <= j < k < |uses| ==> uses[j] < uses[k]) &&
    forall u :: 0 <= u < n ==> (u in uses <==> Repeats(pins, u))
  }

  /** This use is of a wired pin that an earlier use has already. */
  ghost predicate Repeats(pins: seq<int>, u: nat)
    requires u < |pins|
  {
    pins[u] != -1 && exists v :: 0 <= v < u && pins[v] == pins[u]
  }

  /** The pin errors are one per repeated use, in order of use, naming the pin. */
  lemma {:induction false} PinErrorsNameRepeatedUses(pins: seq<int32>, n: nat) returns (uses: seq<nat>)
    requires n <= |pins|
    ensures RepeatedUses(uses, pins, n) && |PinErrors(pins, n)| == |uses|
    ensures forall k :: 0 <= k < |uses| ==> PinErrors(pins, n)[k] == PinReused(pins[uses[k]])
  {
    hide PinErrors, RepeatedUses, Repeats;
    if n == 0 {
      NoRepeatedUses(pins);
      return [];
    }
    var before := PinErrorsNameRepeatedUses(pins, n - 1);
    RepeatsIsPriorMembership(pins, n - 1);
    LastPinError(pins, n - 1);
    RepeatedUsesSnoc(before, pins, n - 1);
    uses := if Repeats(pins, n - 1) then before + [n - 1] else before;
  }

  lemma NoRepeatedUses(pins: seq<int32>)
    ensures RepeatedUses([], pins, 0) && PinErrors(pins, 0) == []
  {
  }

  lemma RepeatedUsesSnoc(before: seq<nat>, pins: seq<int32>, n: nat)
    requires n < |pins| && RepeatedUses(before, pins, n)
    ensures RepeatedUses(if Repeats(pins, n) then before + [n] else before, pins, n + 1)
  {
    hide Repeats;
    var uses := if Repeats(pins, n) then before + [n] else before;
    assert forall u :: 0 <= u < n ==> (u in uses <==> u in before);
    assert n in uses <==> Repeats(pins, n);
  }

  lemma RepeatsIsPriorMembership(pins: seq<int32>, u: nat)
    requires u < |pins|
    ensures Repeats(pins, u) <==> pins[u] != -1 && pins[u] in pins[..u]
  {
    if pins[u] in pins[..u] {
      var v :| 0 <= v < u && pins[..u][v] == pins[u];
      assert pins[v] == pins[u];
    }
    forall v | 0 <= v < u && pins[v] == pins[u]
      ensures pins[u] in pins[..u]
    {
      assert pins[..u][v] == pins[u];
    }
  }

  lemma LastPinError(pins: seq<int32>, n: nat)
    requires n < |pins|
    ensures PinErrors(pins, n + 1) ==
            PinErrors(pins, n) + if pins[n] != -1 && pins[n] in pins[..n] then [PinReused(pins[n])] else []
  {
  }

  // ----- Errors about addresses ------------------------------------------------------------------

  /** The addresses at fault in row `i`: the channel itself, or each later channel it shares with. */
  ghost predicate AddressFault(addresses: Addresses, i: nat, error: ConfigError) {
    i < 8 &&
    match error
    case AddressOutOfRange(channel) =>
      channel == i && addresses[i] != 0 && (addresses[i] < 1 || addresses[i] > 2048)
    case AddressShared(address, channel, other) =>
      channel == i && i < other < 8 && addresses[i] == address == addresses[other] && 1 <= address <= 2048
    case _ => false
  }

  lemma {:induction false} SharedErrorsMembers(addresses: Addresses, i: nat, n: nat, error: ConfigError)
    requires i < n <= CHANNELS
    ensures error in SharedErrors(addresses, i, n) <==>
            error.AddressShared? && error.channel == i && i < error.other < n &&
            addresses[i] == error.address == addresses[error.other]
  {
    if n > i + 1 {
      SharedErrorsMembers(addresses, i, n - 1, error);
    }
  }

  lemma AddressErrorsOfMembers(addresses: Addresses, i: nat, error: ConfigError)
    requires i < CHANNELS
    ensures error in AddressErrorsOf(addresses, i) <==> AddressFault(addresses, i, error)
  {
    hide SharedErrors;
    SharedErrorsMembers(addresses, i, CHANNELS, error);
  }

  lemma {:induction false} AddressErrorsMembers(addresses: Addresses, n: nat, error: ConfigError)
    requires n <= CHANNELS
    ensures error in AddressErrors(addresses, n) <==> exists i: nat :: i < n && AddressFault(addresses, i, error)
  {
    hide AddressErrorsOf, AddressFault;
    if n > 0 {
      AddressErrorsMembers(addresses, n - 1, error);
      AddressErrorsOfMembers(addresses, n - 1, error);
    }
  }

  /** Where an address error belongs: by its channel, then by the channel it is shared with. */
  ghost predicate Precedes(a: ConfigError, b: ConfigError) {
    (a.AddressOutOfRange? || a.AddressShared?) && (b.AddressOutOfRange? || b.AddressShared?) &&
    (a.channel < b.channel || (a.channel == b.channel && a.AddressShared? && b.AddressShared? && a.other < b.other))
  }

  ghost predicate InOrder(errors: seq<ConfigError>) {
    forall j, k :: 0 <= j < k < |errors| ==> Precedes(errors[j], errors[k])
  }

  lemma {:induction false} SharedErrorsInOrder(addresses: Addresses, i: nat, n: nat)
    requires i < n <= CHANNELS
    ensures InOrder(SharedErrors(addresses, i, n))
  {
    if n > i + 1 {
      var before := SharedErrors(addresses, i, n - 1);
      var row := if addresses[n - 1] == addresses[i] then [AddressShared(addresses[i], i, n - 1)] else [];
      SharedErrorsInOrder(addresses, i, n - 1);
      forall a, b | a in before && b in row
        ensures Precedes(a, b)
      {
        SharedErrorsMembers(addresses, i, n - 1, a);
      }
      InOrderConcat(before, row);
    }
  }

  /** The address errors come channel by channel, and for one channel by the other one. */
  lemma {:induction false} AddressErrorsInOrder(addresses: Addresses, n: nat)
    requires n <= CHANNELS
    ensures InOrder(AddressErrors(addresses, n))
  {
    hide SharedErrors, Precedes;
    if n > 0 {
      var before, row := AddressErrors(addresses, n - 1), AddressErrorsOf(addresses, n - 1);
      AddressErrorsInOrder(addresses, n - 1);
      SharedErrorsInOrder(addresses, n - 1, CHANNELS);
      assert InOrder(row);
      forall a, b | a in before && b in row
        ensures Precedes(a, b)
      {
        RowsPrecede(addresses, n - 1, a, b);
      }
      InOrderConcat(before, row);
    }
  }

  lemma RowsPrecede(addresses: Addresses, i: nat, a: ConfigError, b: ConfigError)
    requires i < CHANNELS && a in AddressErrors(addresses, i) && b in AddressErrorsOf(addresses, i)
    ensures Precedes(a, b)
  {
    hide AddressErrors, AddressErrorsOf;
    AddressErrorsMembers(addresses, i, a);
    AddressErrorsOfMembers(addresses, i, b);
  }

  lemma InOrderConcat(a: seq<ConfigError>, b: seq<ConfigError>)
    requires InOrder(a) && InOrder(b) && forall x, y :: x in a && y in b ==> Precedes(x, y)
    ensures InOrder(a + b)
  {
    hide Precedes;
    var all := a + b;
    forall j, k | 0 <= j < k < |all|
      ensures Precedes(all[j], all[k])
    {
      if k >= |a| {
        assert all[k] == b[k - |a|];
        assert j >= |a| ==> all[j] == b[j - |a|];
      }
    }
  }

  // ----- All errors -------------------------------------------------------------------------------

  /** The fault the error names is one the configuration has: the id is outside 1-16; the pin
      serves two of the sixteen uses; the channel's address is neither 0 nor in 1-2048; the two
      channels, in order, both have the address, which is in 1-2048. */
  ghost predicate HasFault(config: NodeConfig, error: ConfigError) {
    match error
    case IdOutOfRange => config.id < 1 || config.id > 16
    case PinReused(pin) => pin != -1 && ServesTwoUses(config, pin)
    case AddressOutOfRange(channel) =>
      channel < 8 && config.addresses[channel] != 0 &&
      (config.addresses[channel] < 1 || config.addresses[channel] > 2048)
    case AddressShared(address, channel, other) =>
      channel < other < 8 && config.addresses[channel] == address == config.addresses[other] && 1 <= address <= 2048
  }

  /** One channel's output and feedback, or two channels, are on this pin. */
  ghost predicate ServesTwoUses(config: NodeConfig, pin: int32) {
    (exists i :: 0 <= i < 8 && config.turnouts[i].outputPin == pin == config.turnouts[i].feedbackPin) ||
    exists i, j :: 0 <= i < j < 8 && UsesPin(config, i, pin) && UsesPin(config, j, pin)
  }

  predicate UsesPin(config: NodeConfig, i: nat, pin: int32)
    requires i < 8
  {
    config.turnouts[i].outputPin == pin || config.turnouts[i].feedbackPin == pin
  }

  lemma TwoUsesRepeat(config: NodeConfig, pin: int32)
    requires pin != -1
    ensures ServesTwoUses(config, pin) <==>
            exists u: nat :: u < 16 && Pins(config)[u] == pin && Repeats(Pins(config), u)
  {
    var pins := Pins(config);
    forall i | 0 <= i < 8
      ensures pins[2 * i] == config.turnouts[i].outputPin && pins[2 * i + 1] == config.turnouts[i].feedbackPin
    {
      PinUse(config, i, 0);
      PinUse(config, i, 1);
    }
    hide Pins;
    if i :| 0 <= i < 8 && config.turnouts[i].outputPin == pin == config.turnouts[i].feedbackPin {
      assert pins[2 * i] == pin && pins[2 * i + 1] == pin;
      assert Repeats(pins, 2 * i + 1);
    } else if i, j :| 0 <= i < j < 8 && UsesPin(config, i, pin) && UsesPin(config, j, pin) {
      var u := if pins[2 * i] == pin then 2 * i else 2 * i + 1;
      var v := if pins[2 * j] == pin then 2 * j else 2 * j + 1;
      assert pins[u] == pin && pins[v] == pin && u < v;
      assert Repeats(pins, v);
    }
    if u: nat :| u < 16 && pins[u] == pin && Repeats(pins, u) {
      var v :| 0 <= v < u && pins[v] == pins[u];
      UseOfChannel(config, pins, u, pin);
      UseOfChannel(config, pins, v, pin);
      if v / 2 == u / 2 {
        assert v == 2 * (u / 2) && u == 2 * (u / 2) + 1;
        assert config.turnouts[u / 2].outputPin == pin == config.turnouts[u / 2].feedbackPin;
      } else {
        assert v / 2 < u / 2 && UsesPin(config, v / 2, pin) && UsesPin(config, u / 2, pin);
      }
    }
  }

  lemma UseOfChannel(config: NodeConfig, pins: seq<int32>, u: nat, pin: int32)
    requires |pins| == 16 && u < 16 && pins[u] == pin
    requires forall i :: 0 <= i < 8 ==>
      pins[2 * i] == config.turnouts[i].outputPin && pins[2 * i + 1] == config.turnouts[i].feedbackPin
    ensures UsesPin(config, u / 2, pin)
  {
    assert u == 2 * (u / 2) || u == 2 * (u / 2) + 1;
  }

  lemma PinErrorsMembers(config: NodeConfig, error: ConfigError)
    ensures error in PinErrors(Pins(config), 16) <==>
            error.PinReused? && error.pin != -1 && ServesTwoUses(config, error.pin)
  {
    hide PinErrors, ServesTwoUses, Repeats, Pins;
    var pins := Pins(config);
    var uses := PinErrorsNameRepeatedUses(pins, 16);
    if error in PinErrors(pins, 16) {
      var k :| 0 <= k < |uses| && PinErrors(pins, 16)[k] == error;
      assert uses[k] in uses && Repeats(pins, uses[k]);
      RepeatedIsWired(pins, uses[k]);
      TwoUsesRepeat(config, error.pin);
    }
    if error.PinReused? && error.pin != -1 && ServesTwoUses(config, error.pin) {
      TwoUsesRepeat(config, error.pin);
      var u: nat :| u < 16 && pins[u] == error.pin && Repeats(pins, u);
      assert u in uses;
      var k :| 0 <= k < |uses| && uses[k] == u;
      assert PinErrors(pins, 16)[k] == error;
    }
  }

  lemma RepeatedIsWired(pins: seq<int32>, u: nat)
    requires u < |pins| && Repeats(pins, u)
    ensures pins[u] != -1
  {
  }

  /** Main result: the validator lists an error exactly when the configuration has the fault it
      names. */
  lemma ErrorsAreExactlyTheFaults(config: NodeConfig, error: ConfigError)
    ensures error in Errors(config) <==> HasFault(config, error)
  {
    hide PinErrors, AddressErrors, Pins, ServesTwoUses;
    PinErrorsMembers(config, error);
    AddressErrorsMembers(config.addresses, CHANNELS, error);
    assert HasFault(config, error) && (error.AddressOutOfRange? || error.AddressShared?) ==>
           AddressFault(config.addresses, error.channel, error);
  }

  /** And in this order: the id; repeated uses of pins as they are met; addresses by channel. */
  lemma ErrorsInOrder(config: NodeConfig) returns (uses: seq<nat>)
    ensures RepeatedUses(uses, Pins(config), 16)
    ensures var ids: nat := if config.id < 1 || config.id > 16 then 1 else 0;
            var errors := Errors(config);
            ids + |uses| <= |errors| && (ids == 1 ==> errors[0] == IdOutOfRange) &&
            (forall k :: 0 <= k < |uses| ==> errors[ids + k] == PinReused(Pins(config)[uses[k]])) &&
            InOrder(errors[ids + |uses|..])
  {
    hide PinErrors, AddressErrors, Pins, InOrder, RepeatedUses;
    uses := PinErrorsNameRepeatedUses(Pins(config), 16);
    AddressErrorsInOrder(config.addresses, CHANNELS);
    var ids := |IdErrors(config)|;
    assert Errors(config)[ids + |uses|..] == AddressErrors(config.addresses, CHANNELS);
  }
}
