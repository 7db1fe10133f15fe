/** NodeConfig.h: the stored configuration and its validator. */
module NodeConfigs {
  import opened Clock
  import opened Positions

  const CHANNELS := 8
  const MIN_LOCONET_ADDRESS := 1
  const MAX_LOCONET_ADDRESS := 2048

  datatype WifiCredentials = WifiCredentials(ssid: string, password: string)

  datatype BrokerAddress = BrokerAddress(host: string, port: int32)

  datatype TurnoutConfig = TurnoutConfig(id: int32, outputPin: int32, feedbackPin: int32, orientation: Orientation,
                                         settleDuration: Duration, movementTimeout: Duration)

  type TurnoutConfigs = s: seq<TurnoutConfig> | |s| == 8
    witness seq(8, (i: nat) requires i < 8 => TurnoutConfig(i + 1, -1, -1, Orientation(false), 50, 4000))

  /** LocoNet address of each channel; 0 means unconfigured. */
  type Addresses = s: seq<int32> | |s| == 8 witness [0, 0, 0, 0, 0, 0, 0, 0]

  datatype NodeConfig = NodeConfig(id: int32, wifi: WifiCredentials, broker: BrokerAddress,
                                   turnouts: TurnoutConfigs, addresses: Addresses)

  datatype ConfigError =
    | IdOutOfRange
    | PinReused(pin: int32)
    | AddressOutOfRange(channel: nat)
    | AddressShared(address: int32, channel: nat, other: nat)

  /** The sixteen pin uses in the order the validator meets them: each channel's output pin,
      then its feedback pin; -1 is a pin not wired. */
  function Pins(config: NodeConfig): (pins: seq<int32>)
    ensures |pins| == 2 * CHANNELS
  {
    seq(2 * CHANNELS, (k: nat) requires k < 2 * CHANNELS =>
      if k % 2 == 0 then config.turnouts[k / 2].outputPin else config.turnouts[k / 2].feedbackPin)
  }

  predicate InRange(address: int) {
    MIN_LOCONET_ADDRESS <= address <= MAX_LOCONET_ADDRESS
  }

  // ----- The errors, in the order they are found -----------------------------------------------

  function IdErrors(config: NodeConfig): seq<ConfigError> {
    if config.id < 1 || config.id > 16 then [IdOutOfRange] else []
  }

  /** One error for each of the first `n` uses of a pin already used. */
  function PinErrors(pins: seq<int32>, n: nat): seq<ConfigError>
    requires n <= |pins|
  {
    if n == 0 then []
    else PinErrors(pins, n - 1) +
         if pins[n - 1] != -1 && pins[n - 1] in pins[..n - 1] then [PinReused(pins[n - 1])] else []
  }

  /** One error for each channel after `i` and before `n` with the address of channel `i`. */
  function SharedErrors(addresses: Addresses, i: nat, n: nat): seq<ConfigError>
    requires i < n <= CHANNELS
  {
    if n == i + 1 then []
    else SharedErrors(addresses, i, n - 1) +
         if addresses[n - 1] == addresses[i] then [AddressShared(addresses[i], i, n - 1)] else []
  }

  function AddressErrorsOf(addresses: Addresses, i: nat): seq<ConfigError>
    requires i < CHANNELS
  {
    if addresses[i] == 0 then []
    else if !InRange(addresses[i]) then [AddressOutOfRange(i)]
    else SharedErrors(addresses, i, CHANNELS)
  }

  function AddressErrors(addresses: Addresses, n: nat): seq<ConfigError>
    requires n <= CHANNELS
  {
    if n == 0 then [] else AddressErrors(addresses, n - 1) + AddressErrorsOf(addresses, n - 1)
  }

  function Errors(config: NodeConfig): seq<ConfigError> {
    IdErrors(config) + PinErrors(Pins(config), 2 * CHANNELS) + AddressErrors(config.addresses, CHANNELS)
  }

  // ----- The validator --------------------------------------------------------------------------

  method Validate(config: NodeConfig) returns (errors: seq<ConfigError>)
    ensures errors == Errors(config)
    ensures errors == [] <==> Valid(config)
  {
    errors := [];
    if config.id < 1 || config.id > 16 {
      errors := errors + [IdOutOfRange];
    }
    var pinErrors := ValidatePins(config);
    var addressErrors := ValidateAddresses(config.addresses);
    errors := errors + pinErrors + addressErrors;
    ValidatorIsSoundAndComplete(config);
  }

  /** The pins seen so far are the wired ones among the first `n` uses. */
  ghost predicate Seen(seenPins: seq<int32>, pins: seq<int32>, n: nat)
    requires n <= |pins|
  {
    forall pin :: pin in seenPins <==> pin != -1 && pin in pins[..n]
  }

  lemma NothingSeen(pins: seq<int32>)
    ensures Seen([], pins, 0) && PinErrors(pins, 0) == []
  {
  }

  lemma SeenNext(seenPins: seq<int32>, pins: seq<int32>, n: nat)
    requires n < |pins| && Seen(seenPins, pins, n)
    ensures pins[n] in seenPins <==> pins[n] != -1 && pins[n] in pins[..n]
    ensures Seen(if pins[n] == -1 then seenPins else seenPins + [pins[n]], pins, n + 1)
  {
    assert pins[..n + 1] == pins[..n] + [pins[n]];
  }

  lemma PinUse(config: NodeConfig, i: nat, k: nat)
    requires i < CHANNELS && k < 2
    ensures Pins(config)[2 * i + k] == [config.turnouts[i].outputPin, config.turnouts[i].feedbackPin][k]
  {
    assert (2 * i + k) % 2 == k && (2 * i + k) / 2 == i;
  }

  /** The body of the pin loop: an error for a wired pin already seen, which is then seen. */
  method VisitPin(pin: int32, errors: seq<ConfigError>, seenPins: seq<int32>, ghost pins: seq<int32>, ghost n: nat)
    returns (errors': seq<ConfigError>, seenPins': seq<int32>)
    requires n < |pins| && pin == pins[n] && Seen(seenPins, pins, n) && errors == PinErrors(pins, n)
    ensures Seen(seenPins', pins, n + 1) && errors' == PinErrors(pins, n + 1)
  {
    SeenNext(seenPins, pins, n);
    errors', seenPins' := errors, seenPins;
    if pin == -1 {
      return;
    }
    if pin in seenPins {
      errors' := errors + [PinReused(pin)];
    }
    seenPins' := seenPins + [pin];
  }

  method ValidatePins(config: NodeConfig) returns (errors: seq<ConfigError>)
    ensures errors == PinErrors(Pins(config), 2 * CHANNELS)
  {
    hide Pins, Seen, PinErrors;
    ghost var pins := Pins(config);
    errors := [];
    var seenPins: seq<int32> := [];
    NothingSeen(pins);
    for i := 0 to CHANNELS
      invariant Seen(seenPins, pins, 2 * i) && errors == PinErrors(pins, 2 * i)
    {
      var both := [config.turnouts[i].outputPin, config.turnouts[i].feedbackPin];
      for k := 0 to 2
        invariant Seen(seenPins, pins, 2 * i + k) && errors == PinErrors(pins, 2 * i + k)
      {
        var pin := both[k];
        PinUse(config, i, k);
        errors, seenPins := VisitPin(pin, errors, seenPins, pins, 2 * i + k);
      }
    }
  }

  method ValidateAddresses(addresses: Addresses) returns (errors: seq<ConfigError>)
    ensures errors == AddressErrors(addresses, CHANNELS)
  {
    errors := [];
    for i := 0 to CHANNELS
      invariant errors == AddressErrors(addresses, i)
    {
      if addresses[i] == 0 {
        continue;
      }
      if addresses[i] < MIN_LOCONET_ADDRESS || addresses[i] > MAX_LOCONET_ADDRESS {
        errors := errors + [AddressOutOfRange(i)];
        continue;
      }
      ghost var before := errors;
      for other := i + 1 to CHANNELS
        invariant errors == before + SharedErrors(addresses, i, other)
      {
        if addresses[other] == addresses[i] {
          errors := errors + [AddressShared(addresses[i], i, other)];
        }
      }
    }
  }

  // ----- What a valid configuration is ------------------------------------------------------------

  ghost predicate PinsDistinct(pins: seq<int32>, n: nat)
    requires n <= |pins|
  {
    forall i, j :: 0 <= i < j < n && pins[i] != -1 ==> pins[i] != pins[j]
  }

  ghost predicate AddressesValid(addresses: Addresses, n: nat)
    requires n <= CHANNELS
  {
    forall i: nat :: i < n ==> AddressValid(addresses, i)
  }

  ghost predicate AddressValid(addresses: Addresses, i: nat)
    requires i < CHANNELS
  {
    addresses[i] == 0 ||
    (InRange(addresses[i]) && forall j :: i < j < CHANNELS ==> addresses[i] != addresses[j])
  }

  /** The id is in 1-16, no wired pin serves two uses, and configured LocoNet addresses are in
      1-2048 and not shared. */
  ghost predicate Valid(config: NodeConfig) {
    1 <= config.id <= 16 && PinsDistinct(Pins(config), 2 * CHANNELS) && AddressesValid(config.addresses, CHANNELS)
  }

  lemma {:induction false} PinErrorsExact(pins: seq<int32>, n: nat)
    requires n <= |pins|
    ensures PinErrors(pins, n) == [] <==> PinsDistinct(pins, n)
  {
    if n > 0 {
      PinErrorsExact(pins, n - 1);
      if pins[n - 1] != -1 && pins[n - 1] in pins[..n - 1] {
        var i :| 0 <= i < n - 1 && pins[i] == pins[n - 1];
        assert !PinsDistinct(pins, n);
      }
    }
  }

  lemma {:induction false} SharedErrorsExact(addresses: Addresses, i: nat, n: nat)
    requires i < n <= CHANNELS
    ensures SharedErrors(addresses, i, n) == [] <==> forall j :: i < j < n ==> addresses[i] != addresses[j]
  {
    if n > i + 1 {
      SharedErrorsExact(addresses, i, n - 1);
    }
  }

  lemma AddressErrorsOfExact(addresses: Addresses, i: nat)
    requires i < CHANNELS
    ensures AddressErrorsOf(addresses, i) == [] <==> AddressValid(addresses, i)
  {
    hide SharedErrors;
    SharedErrorsExact(addresses, i, CHANNELS);
  }

  lemma {:induction false} AddressErrorsExact(addresses: Addresses, n: nat)
    requires n <= CHANNELS
    ensures AddressErrors(addresses, n) == [] <==> AddressesValid(addresses, n)
  {
    hide AddressErrorsOf, AddressValid;
    if n > 0 {
      AddressErrorsExact(addresses, n - 1);
      AddressErrorsOfExact(addresses, n - 1);
    }
  }

  /** Main result: the validator finds no error exactly in the valid configurations. */
  lemma ValidatorIsSoundAndComplete(config: NodeConfig)
    ensures Errors(config) == [] <==> Valid(config)
  {
    PinErrorsExact(Pins(config), 2 * CHANNELS);
    AddressErrorsExact(config.addresses, CHANNELS);
  }

  // ----- How many errors ------------------------------------------------------------------------------

  /** Which of the first `n` uses are wired, and to which pins. */
  function WiredUses(pins: seq<int32>, n: nat): set<nat>
    requires n <= |pins|
  {
    set k: nat | k < n && pins[k] != -1
  }

  function WiredPins(pins: seq<int32>, n: nat): set<int32>
    requires n <= |pins|
  {
    set k: nat | k < n && pins[k] != -1 :: pins[k]
  }

  /** Every wired use beyond the first of its pin is one error. */
  lemma {:induction false} PinErrorsCount(pins: seq<int32>, n: nat)
    requires n <= |pins|
    ensures |PinErrors(pins, n)| == |WiredUses(pins, n)| - |WiredPins(pins, n)|
  {
    if n == 0 {
      assert WiredUses(pins, 0) == {} && WiredPins(pins, 0) == {};
      return;
    }
    hide WiredUses, WiredPins;
    var pin, k := pins[n - 1], n - 1;
    PinErrorsCount(pins, k);
    WiredGrow(pins, k);
    assert |PinErrors(pins, n)| == |PinErrors(pins, k)| + if pin != -1 && pin in pins[..k] then 1 else 0;
    hide PinErrors;
    if pin == -1 {
      assert WiredUses(pins, n) == WiredUses(pins, k) && WiredPins(pins, n) == WiredPins(pins, k);
    } else {
      WiredPinsMembers(pins, k, pin);
      OneMore(WiredUses(pins, k), k);
      OneMore(WiredPins(pins, k), pin);
    }
  }

  lemma OneMore<T>(s: set<T>, x: T)
    ensures |s + {x}| == |s| + if x in s then 0 else 1
  {
    assert x in s ==> s + {x} == s;
  }

  lemma WiredGrow(pins: seq<int32>, n: nat)
    requires n < |pins|
    ensures n !in WiredUses(pins, n)
    ensures WiredUses(pins, n + 1) == WiredUses(pins, n) + if pins[n] == -1 then {} else {n}
    ensures WiredPins(pins, n + 1) == WiredPins(pins, n) + if pins[n] == -1 then {} else {pins[n]}
  {
  }

  lemma WiredPinsMembers(pins: seq<int32>, n: nat, pin: int32)
    requires n <= |pins| && pin != -1
    ensures pin in WiredPins(pins, n) <==> pin in pins[..n]
  {
    if pin in pins[..n] {
      var k: nat :| k < n && pins[..n][k] == pin;
      assert pins[k] == pin;
    }
  }

  function OutOfRangeChannels(addresses: Addresses, n: nat): set<nat>
    requires n <= CHANNELS
  {
    set i: nat | i < n && addresses[i] != 0 && !InRange(addresses[i])
  }

  predicate Shares(addresses: Addresses, a: nat, b: nat) {
    a < b < CHANNELS && addresses[a] == addresses[b] && InRange(addresses[a])
  }

  /** Pairs of channels with one in-range address: all pairs whose lower channel is before `i`,
      and those of channel `i` whose upper channel is before `n`. */
  function SharingPairs(addresses: Addresses, i: nat, n: nat): (pairs: set<(nat, nat)>)
    ensures forall a: nat, b: nat :: (a, b) in pairs <==> Shares(addresses, a, b) && (a < i || (a == i && b < n))
  {
    set a: nat, b: nat | a < CHANNELS && b < CHANNELS && Shares(addresses, a, b) && (a < i || (a == i && b < n)) ::
      (a, b)
  }

  lemma PairsGrow(addresses: Addresses, i: nat, n: nat)
    ensures (i, n) !in SharingPairs(addresses, i, n)
    ensures SharingPairs(addresses, i, n + 1) ==
            SharingPairs(addresses, i, n) + if Shares(addresses, i, n) then {(i, n)} else {}
  {
    hide SharingPairs, Shares;
    forall p | p in SharingPairs(addresses, i, n + 1)
      ensures p in SharingPairs(addresses, i, n) || (Shares(addresses, i, n) && p == (i, n))
    {
      assert p == (p.0, p.1);
    }
    forall p | p in SharingPairs(addresses, i, n)
      ensures p in SharingPairs(addresses, i, n + 1)
    {
      assert p == (p.0, p.1);
    }
  }

  /** A finished row is the next row not yet begun, and the first pair of a row comes after it. */
  lemma PairsRows(addresses: Addresses, i: nat)
    ensures SharingPairs(addresses, i, CHANNELS) == SharingPairs(addresses, i + 1, i + 1)
    ensures SharingPairs(addresses, i, i + 1) == SharingPairs(addresses, i, i)
  {
    hide SharingPairs;
    forall p | p in SharingPairs(addresses, i, CHANNELS) + SharingPairs(addresses, i + 1, i + 1)
      ensures p in SharingPairs(addresses, i, CHANNELS) && p in SharingPairs(addresses, i + 1, i + 1)
    {
      assert p == (p.0, p.1);
    }
    forall p | p in SharingPairs(addresses, i, i + 1) + SharingPairs(addresses, i, i)
      ensures p in SharingPairs(addresses, i, i + 1) && p in SharingPairs(addresses, i, i)
    {
      assert p == (p.0, p.1);
    }
  }

  lemma {:induction false} SharedErrorsCount(addresses: Addresses, i: nat, n: nat)
    requires i < n <= CHANNELS && InRange(addresses[i])
    ensures |SharedErrors(addresses, i, n)| == |SharingPairs(addresses, i, n)| - |SharingPairs(addresses, i, i)|
  {
    hide SharingPairs;
    if n == i + 1 {
      PairsRows(addresses, i);
    } else {
      SharedErrorsCount(addresses, i, n - 1);
      PairsGrow(addresses, i, n - 1);
    }
  }

  lemma {:induction false} NoPairsOutOfRange(addresses: Addresses, i: nat, n: nat)
    requires i < n <= CHANNELS && !InRange(addresses[i])
    ensures SharingPairs(addresses, i, n) == SharingPairs(addresses, i, i)
  {
    hide SharingPairs;
    if n == i + 1 {
      PairsRows(addresses, i);
    } else {
      NoPairsOutOfRange(addresses, i, n - 1);
      PairsGrow(addresses, i, n - 1);
    }
  }

  /** Every out-of-range address and every pair sharing an in-range one is one error. */
  lemma {:induction false} AddressErrorsCount(addresses: Addresses, n: nat)
    requires n <= CHANNELS
    ensures |AddressErrors(addresses, n)| == |OutOfRangeChannels(addresses, n)| + |SharingPairs(addresses, n, n)|
  {
    if n == 0 {
      assert OutOfRangeChannels(addresses, 0) == {};
      assert SharingPairs(addresses, 0, 0) == {};
      return;
    }
    hide SharingPairs, SharedErrors;
    var i := n - 1;
    AddressErrorsCount(addresses, i);
    PairsRows(addresses, i);
    if InRange(addresses[i]) {
      assert OutOfRangeChannels(addresses, n) == OutOfRangeChannels(addresses, i);
      SharedErrorsCount(addresses, i, CHANNELS);
    } else {
      NoPairsOutOfRange(addresses, i, CHANNELS);
      assert OutOfRangeChannels(addresses, n) ==
             OutOfRangeChannels(addresses, i) + if addresses[i] == 0 then {} else {i};
    }
  }

  /** Main result: how many errors the validator lists. */
  lemma ValidatorCounts(config: NodeConfig)
    ensures var pins, addresses := Pins(config), config.addresses;
            |Errors(config)| ==
            (if 1 <= config.id <= 16 then 0 else 1) +
            |WiredUses(pins, 2 * CHANNELS)| - |WiredPins(pins, 2 * CHANNELS)| +
            |OutOfRangeChannels(addresses, CHANNELS)| + |SharingPairs(addresses, CHANNELS, CHANNELS)|
  {
    PinErrorsCount(Pins(config), 2 * CHANNELS);
    AddressErrorsCount(config.addresses, CHANNELS);
  }
}
