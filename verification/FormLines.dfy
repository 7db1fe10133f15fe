/** The command lines of a form, whatever its fields hold: each opens with its keyword, and where it
    reads as a command at all it writes its own part of the configuration. */
module FormLines {
  import opened Positions
  import opened Text
  import opened Tokenising
  import opened NodeConfigs
  import opened Commands
  import opened Sessions
  import opened WebForms

  // ----- Each line writes its own slot ------------------------------------------------------------------

  /** Which part of the configuration a setting command writes: id, wifi, broker, then the eight
      turnouts, then the eight addresses. */
  function Slot(command: Command): int
    requires command.WellFormed()
  {
    match command
    case SetId(_) => 0
    case SetWifi(_, _) => 1
    case SetBroker(_, _) => 2
    case SetTurnout(index, _) => 3 + index
    case SetLocoNetAddress(index, _) => 11 + index
    case _ => -1
  }

  predicate AgreeAt(a: NodeConfig, b: NodeConfig, slot: int) {
    if slot == 0 then a.id == b.id
    else if slot == 1 then a.wifi == b.wifi
    else if slot == 2 then a.broker == b.broker
    else if 3 <= slot < 11 then a.turnouts[slot - 3] == b.turnouts[slot - 3]
    else if 11 <= slot < 19 then a.addresses[slot - 11] == b.addresses[slot - 11]
    else true
  }

  lemma AgreementEverywhere(a: NodeConfig, b: NodeConfig)
    requires forall slot :: 0 <= slot < 19 ==> AgreeAt(a, b, slot)
    ensures a == b
  {
    assert AgreeAt(a, b, 0) && AgreeAt(a, b, 1) && AgreeAt(a, b, 2);
    forall i | 0 <= i < CHANNELS
      ensures a.turnouts[i] == b.turnouts[i] && a.addresses[i] == b.addresses[i]
    {
      assert AgreeAt(a, b, 3 + i) && AgreeAt(a, b, 11 + i);
    }
  }

  lemma EditsOneSlot(draft: NodeConfig, command: Command, slot: int)
    requires command.WellFormed() && slot != Slot(command)
    ensures AgreeAt(Edited(draft, command), draft, slot)
  {
  }

  /** The line reads as no command, or as one that writes this slot. */
  predicate Writes(line: string, slot: int) {
    Parsed(line).Invalid? || Slot(Parsed(line)) == slot
  }

  ghost predicate Ascending(slots: seq<int>) {
    forall j, k :: 0 <= j < k < |slots| ==> slots[j] < slots[k]
  }

  /** Lines that, where they read as commands at all, write the given slots, in ascending order. */
  ghost predicate WriteSlots(lines: seq<string>, slots: seq<int>) {
    |lines| == |slots| && Between(slots, 0, 19) && Ascending(slots) &&
    forall k :: 0 <= k < |lines| ==> Writes(lines[k], slots[k])
  }

  ghost predicate Between(slots: seq<int>, low: int, high: int) {
    forall k :: 0 <= k < |slots| ==> low <= slots[k] < high
  }

  lemma SlotsConcat(a: seq<string>, aSlots: seq<int>, b: seq<string>, bSlots: seq<int>,
                    low: int, middle: int, high: int)
    requires WriteSlots(a, aSlots) && WriteSlots(b, bSlots)
    requires Between(aSlots, low, middle) && Between(bSlots, middle, high) && low <= middle <= high
    ensures WriteSlots(a + b, aSlots + bSlots) && Between(aSlots + bSlots, low, high)
  {
    hide Writes;
    var lines, slots := a + b, aSlots + bSlots;
    assert forall k :: 0 <= k < |slots| ==> slots[k] == if k < |aSlots| then aSlots[k] else bSlots[k - |aSlots|];
    forall k | 0 <= k < |lines|
      ensures Writes(lines[k], slots[k])
    {
      if k < |a| {
        assert Writes(a[k], aSlots[k]);
      } else {
        assert Writes(b[k - |a|], bSlots[k - |a|]);
      }
    }
    assert Ascending(slots);
  }

  lemma WriteSlotsPrefix(lines: seq<string>, slots: seq<int>, n: nat)
    requires WriteSlots(lines, slots) && n <= |lines|
    ensures |slots| == |lines| && WriteSlots(lines[..n], slots[..n])
  {
  }

  /** A slot no line writes stays as it was. */
  lemma {:induction false} UnwrittenSlotStays(s: Session, lines: seq<string>, slots: seq<int>, slot: int)
    requires WriteSlots(lines, slots) && slot !in slots && ApplyLines(s, lines).1.None?
    ensures AgreeAt(ApplyLines(s, lines).0.draft, s.draft, slot)
    decreases |lines|
  {
    if lines != [] {
      var command := Parsed(lines[0]);
      assert slots[0] in slots && Writes(lines[0], slots[0]) && !command.Invalid?;
      EditsOneSlot(s.draft, command, slot);
      UnwrittenSlotStays(s.Applied(command), lines[1..], slots[1..], slot);
      AgreeTransitive(ApplyLines(s, lines).0.draft, s.Applied(command).draft, s.draft, slot);
    }
  }

  lemma AgreeTransitive(a: NodeConfig, b: NodeConfig, c: NodeConfig, slot: int)
    requires AgreeAt(a, b, slot) && AgreeAt(b, c, slot)
    ensures AgreeAt(a, c, slot)
  {
  }

  /** The line reads as a command that leaves the draft as it is. */
  predicate Keeps(draft: NodeConfig, line: string) {
    !Parsed(line).Invalid? && Edited(draft, Parsed(line)) == draft
  }

  ghost predicate AllKeep(draft: NodeConfig, lines: seq<string>) {
    forall k :: 0 <= k < |lines| ==> Keeps(draft, lines[k])
  }

  /** The first of such lines left the draft alone if the last returns it: no later line could
      have repaired what it changed. */
  lemma FirstLineKeeps(s: Session, lines: seq<string>, slots: seq<int>)
    requires lines != [] && WriteSlots(lines, slots)
    requires ApplyLines(s, lines).1.None? && ApplyLines(s, lines).0.draft == s.draft
    ensures Keeps(s.draft, lines[0])
    ensures ApplyLines(s, lines) == ApplyLines(s.Applied(Parsed(lines[0])), lines[1..])
    ensures s.Applied(Parsed(lines[0])).draft == s.draft && WriteSlots(lines[1..], slots[1..])
  {
    hide AgreeAt, WriteSlots, Parsed, Edited, Slot;
    var command, next := Parsed(lines[0]), s.Applied(Parsed(lines[0]));
    WriteSlotsTail(lines, slots);
    UnwrittenSlotStays(next, lines[1..], slots[1..], slots[0]);
    forall slot | 0 <= slot < 19
      ensures AgreeAt(next.draft, s.draft, slot)
    {
      if slot == slots[0] {
        AgreeSymmetric(s.draft, next.draft, slot);
      } else {
        EditsOneSlot(s.draft, command, slot);
      }
    }
    AgreementEverywhere(next.draft, s.draft);
  }

  lemma WriteSlotsTail(lines: seq<string>, slots: seq<int>)
    requires lines != [] && WriteSlots(lines, slots)
    ensures |slots| == |lines| && WriteSlots(lines[1..], slots[1..]) && slots[0] !in slots[1..]
    ensures Writes(lines[0], slots[0]) && 0 <= slots[0] < 19
    ensures !Parsed(lines[0]).Invalid? ==> !Parsed(lines[0]).Save? && Slot(Parsed(lines[0])) == slots[0]
  {
    hide Parsed;
  }

  /** If lines that write ascending slots succeed and return the draft they started from, every
      one of them keeps it. */
  lemma {:induction false} ReturningLinesKeep(s: Session, lines: seq<string>, slots: seq<int>)
    requires WriteSlots(lines, slots)
    requires ApplyLines(s, lines).1.None? && ApplyLines(s, lines).0.draft == s.draft
    ensures AllKeep(s.draft, lines)
    decreases |lines|
  {
    if lines != [] {
      FirstLineKeeps(s, lines, slots);
      hide WriteSlots, Keeps, Session.Applied;
      ReturningLinesKeep(s.Applied(Parsed(lines[0])), lines[1..], slots[1..]);
      assert forall k :: 0 < k < |lines| ==> lines[k] == lines[1..][k - 1];
    }
  }

  lemma AgreeSymmetric(a: NodeConfig, b: NodeConfig, slot: int)
    requires AgreeAt(a, b, slot)
    ensures AgreeAt(b, a, slot)
  {
  }

  /** Conversely, lines that each keep the draft all succeed and return the session unchanged. */
  lemma {:induction false} KeepingLinesReturn(s: Session, lines: seq<string>, slots: seq<int>)
    requires WriteSlots(lines, slots) && AllKeep(s.draft, lines)
    ensures ApplyLines(s, lines) == (s, None)
    decreases |lines|
  {
    if lines != [] {
      var command := Parsed(lines[0]);
      assert Keeps(s.draft, lines[0]) && Writes(lines[0], slots[0]) && Slot(command) >= 0;
      assert s.Applied(command) == s;
      KeepingLinesReturn(s, lines[1..], slots[1..]);
    }
  }

  // ----- Opening with a keyword ---------------------------------------------------------------------------

  /** The command is of the kind this keyword opens. */
  predicate SetBy(keyword: string, command: Command) {
    match command
    case SetId(_) => keyword == "id"
    case SetWifi(_, _) => keyword == "wifi"
    case SetBroker(_, _) => keyword == "broker"
    case SetTurnout(_, _) => keyword == "turnout"
    case SetLocoNetAddress(_, _) => keyword == "address"
    case _ => false
  }

  /** A line that opens with a setting keyword and a space sets what that keyword sets or is
      refused, whatever follows: no field of a form can smuggle in a save or a reboot. */
  lemma KeywordLineSets(line: string, keyword: string)
    requires keyword in {"id", "wifi", "broker", "turnout", "address"}
    requires |keyword| < |line| && line[..|keyword|] == keyword && line[|keyword|] == ' '
    ensures Parsed(line).Invalid? || SetBy(keyword, Parsed(line))
  {
    KeywordsAreBare();
    BareThen(keyword, line[|keyword|..]);
    assert line == keyword + line[|keyword|..];
    assert Tokens(line)[0] == keyword;
    KeywordIsNoOther(Tokens(line));
  }

  lemma KeywordIsNoOther(tokens: seq<string>)
    requires tokens != [] && tokens[0] in {"id", "wifi", "broker", "turnout", "address"}
    ensures ParseTokens(tokens).Invalid? || SetBy(tokens[0], ParseTokens(tokens))
  {
    hide ParseInt;
    KeywordIsNotFixed(tokens[0]);
  }

  lemma KeywordIsNotFixed(keyword: string)
    requires keyword in {"id", "wifi", "broker", "turnout", "address"}
    ensures keyword != "show" && keyword != "save" && keyword != "reboot"
  {
    assert "show"[0] == 's' && "save"[0] == 's' && "reboot"[0] == 'r';
    assert keyword[0] in {'i', 'w', 'b', 't', 'a'};
  }

  /** A line that opens with a keyword and a number has that number as its second token. */
  lemma NumberIsSecond(line: string, keyword: string, n: nat)
    requires keyword in {"turnout", "address"}
    requires var head := keyword + " " + IntText(n);
             |head| < |line| && line[..|head|] == head && line[|head|] == ' '
    ensures |Tokens(line)| >= 2 && Tokens(line)[0] == keyword && Tokens(line)[1] == IntText(n)
  {
    hide Tokens, IntText, IsBare;
    var head := keyword + " " + IntText(n);
    var rest := line[|head|..];
    KeywordsAreBare();
    IntTextIsBare(n);
    BareThen(IntText(n), rest);
    SpaceThen(IntText(n) + rest);
    BareThen(keyword, " " + (IntText(n) + rest));
    assert line == head + rest;
    Associate(keyword, " ", IntText(n) + rest);
    Associate(keyword + " ", IntText(n), rest);
  }

  /** The channel such a line names is the number's, whatever follows. */
  lemma NumberNamesChannel(line: string, keyword: string, i: nat)
    requires keyword in {"turnout", "address"} && i < CHANNELS
    requires var head := keyword + " " + IntText(i + 1);
             |head| < |line| && line[..|head|] == head && line[|head|] == ' '
    ensures Parsed(line).SetTurnout? || Parsed(line).SetLocoNetAddress? ==> Parsed(line).index == i
  {
    hide Tokens, IntText, ParseInt;
    NumberIsSecond(line, keyword, i + 1);
    ParseIntOfIntText(i + 1);
  }

  lemma NumberedLineWrites(line: string, keyword: string, i: nat)
    requires keyword in {"turnout", "address"} && i < CHANNELS
    requires var head := keyword + " " + IntText(i + 1);
             |head| < |line| && line[..|head|] == head && line[|head|] == ' '
    ensures Writes(line, if keyword == "turnout" then 3 + i else 11 + i)
  {
    hide IntText, Parsed;
    var head := keyword + " " + IntText(i + 1);
    assert line[..|keyword|] == head[..|keyword|] && line[|keyword|] == head[|keyword|];
    assert head[..|keyword|] == keyword && head[|keyword|] == ' ';
    KeywordLineSets(line, keyword);
    NumberNamesChannel(line, keyword, i);
  }

  // ----- The lines of any form ------------------------------------------------------------------------------

  lemma HeadLinesWrite(form: WebForm)
    ensures Writes(IdLine(form), 0) && Writes(WifiLine(form), 1) && Writes(BrokerLine(form), 2)
  {
    hide Parsed;
    assert IdLine(form)[..2] == "id" && WifiLine(form)[..4] == "wifi" && BrokerLine(form)[..6] == "broker";
    KeywordLineSets(IdLine(form), "id");
    KeywordLineSets(WifiLine(form), "wifi");
    KeywordLineSets(BrokerLine(form), "broker");
  }

  lemma TurnoutLineWrites(i: nat, field: TurnoutField)
    requires i < CHANNELS
    ensures Writes(TurnoutLine(i, field), 3 + i)
  {
    hide IntText, Writes;
    var line, head := TurnoutLine(i, field), "turnout" + " " + IntText(i + 1);
    assert "turnout" + " " == "turnout ";
    assert line[..|head|] == head && line[|head|] == ' ';
    NumberedLineWrites(line, "turnout", i);
  }

  lemma AddressLineWrites(i: nat, field: TurnoutField)
    requires i < CHANNELS
    ensures Writes(AddressLine(i, field), 11 + i)
  {
    hide IntText, Writes;
    var line, head := AddressLine(i, field), "address" + " " + IntText(i + 1);
    assert "address" + " " == "address ";
    assert line[..|head|] == head && line[|head|] == ' ';
    NumberedLineWrites(line, "address", i);
  }

  function TurnoutSlots(fields: TurnoutFields, n: nat): seq<int>
    requires n <= CHANNELS
  {
    if n == 0 then []
    else TurnoutSlots(fields, n - 1) + if fields[n - 1].pin == "" then [] else [3 + n - 1]
  }

  function AddressSlots(n: nat): seq<int> {
    if n == 0 then [] else AddressSlots(n - 1) + [11 + n - 1]
  }

  function FormSlots(form: WebForm): seq<int> {
    [0, 1, 2] + TurnoutSlots(form.turnouts, CHANNELS) + AddressSlots(CHANNELS)
  }

  lemma NoLines(low: int, high: int)
    ensures WriteSlots([], []) && Between([], low, high)
  {
  }

  lemma OneLine(line: string, slot: int)
    requires 0 <= slot < 19 && Writes(line, slot)
    ensures WriteSlots([line], [slot]) && Between([slot], slot, slot + 1)
  {
  }

  lemma {:induction false} TurnoutLinesWrite(fields: TurnoutFields, n: nat)
    requires n <= CHANNELS
    ensures WriteSlots(TurnoutLines(fields, n), TurnoutSlots(fields, n))
    ensures Between(TurnoutSlots(fields, n), 3, 3 + n)
  {
    hide WriteSlots, Between, Writes, TurnoutLine;
    if n == 0 {
      NoLines(3, 3);
    } else {
      var i := n - 1;
      var line := if fields[i].pin == "" then [] else [TurnoutLine(i, fields[i])];
      var slot := if fields[i].pin == "" then [] else [3 + i];
      TurnoutLinesWrite(fields, i);
      TurnoutLineWrites(i, fields[i]);
      NoLines(3 + i, 3 + n);
      OneLine(TurnoutLine(i, fields[i]), 3 + i);
      SlotsConcat(TurnoutLines(fields, i), TurnoutSlots(fields, i), line, slot, 3, 3 + i, 3 + n);
    }
  }

  lemma {:induction false} AddressLinesWrite(fields: TurnoutFields, n: nat)
    requires n <= CHANNELS
    ensures WriteSlots(AddressLines(fields, n), AddressSlots(n)) && Between(AddressSlots(n), 11, 11 + n)
  {
    hide WriteSlots, Between, Writes, AddressLine;
    if n == 0 {
      NoLines(11, 11);
    } else {
      var i := n - 1;
      AddressLinesWrite(fields, i);
      AddressLineWrites(i, fields[i]);
      OneLine(AddressLine(i, fields[i]), 11 + i);
      SlotsConcat(AddressLines(fields, i), AddressSlots(i), [AddressLine(i, fields[i])], [11 + i], 11, 11 + i, 11 + n);
    }
  }

  /** Main result: whatever its fields hold, a form's lines write the id, the WiFi credentials, the
      broker, each channel with a pin and each address, every one its own and in that order, or
      are refused. */
  lemma FormLinesWriteSlots(form: WebForm)
    ensures WriteSlots(CommandLines(form), FormSlots(form))
  {
    var head := [IdLine(form), WifiLine(form), BrokerLine(form)];
    hide IdLine, WifiLine, BrokerLine, TurnoutLines, AddressLines, TurnoutSlots, AddressSlots, Writes;
    HeadLinesWrite(form);
    assert WriteSlots(head, [0, 1, 2]) && Between([0, 1, 2], 0, 3);
    hide WriteSlots, Between;
    TurnoutLinesWrite(form.turnouts, CHANNELS);
    AddressLinesWrite(form.turnouts, CHANNELS);
    var turnouts, slots := TurnoutLines(form.turnouts, CHANNELS), TurnoutSlots(form.turnouts, CHANNELS);
    SlotsConcat(head, [0, 1, 2], turnouts, slots, 0, 3, 11);
    SlotsConcat(head + turnouts, [0, 1, 2] + slots, AddressLines(form.turnouts, CHANNELS), AddressSlots(CHANNELS),
                0, 11, 19);
  }

  // ----- Lines up to the first refused one ------------------------------------------------------------------

  /** How many of the lines come before the first that is refused; all, if none is. */
  function Accepted(lines: seq<string>): (n: nat)
    ensures n <= |lines|
  {
    if lines == [] || Parsed(lines[0]).Invalid? then 0 else 1 + Accepted(lines[1..])
  }

  lemma {:induction false} AcceptedStopsAtRefused(lines: seq<string>)
    ensures forall k :: 0 <= k < Accepted(lines) ==> !Parsed(lines[k]).Invalid?
    ensures Accepted(lines) < |lines| ==> Parsed(lines[Accepted(lines)]).Invalid?
  {
    hide Parsed;
    if lines != [] && !Parsed(lines[0]).Invalid? {
      AcceptedStopsAtRefused(lines[1..]);
      assert forall k :: 0 < k < |lines| ==> lines[k] == lines[1..][k - 1];
    }
  }

  /** Applying lines that write slots is applying those before the first refused one. */
  lemma {:induction false} AcceptedLinesApply(s: Session, lines: seq<string>, slots: seq<int>)
    requires WriteSlots(lines, slots)
    ensures ApplyLines(s, lines[..Accepted(lines)]) == (ApplyLines(s, lines).0, None)
    decreases |lines|
  {
    if lines != [] && !Parsed(lines[0]).Invalid? {
      var rest, n := lines[1..], Accepted(lines);
      assert Writes(lines[0], slots[0]);
      assert lines[..n][1..] == rest[..Accepted(rest)] && lines[..n][0] == lines[0];
      AcceptedLinesApply(s.Applied(Parsed(lines[0])), rest, slots[1..]);
    }
  }

  /** So they return the draft they started from exactly when each line applied keeps it. */
  lemma DraftReturnsExactlyWhenKept(s: Session, lines: seq<string>, slots: seq<int>)
    requires WriteSlots(lines, slots)
    ensures ApplyLines(s, lines).0.draft == s.draft <==> AllKeep(s.draft, lines[..Accepted(lines)])
  {
    hide WriteSlots, AllKeep, ApplyLines, Accepted;
    var n := Accepted(lines);
    AcceptedLinesApply(s, lines, slots);
    WriteSlotsPrefix(lines, slots, n);
    if AllKeep(s.draft, lines[..n]) {
      KeepingLinesReturn(s, lines[..n], slots[..n]);
    }
    if ApplyLines(s, lines).0.draft == s.draft {
      ReturningLinesKeep(s, lines[..n], slots[..n]);
    }
  }
}
