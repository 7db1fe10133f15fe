/** SerialCommissioningAdapter.h: a byte stream cut into lines, each line a command for the
    shared session, until one asks for a reboot. */
module Serials {
  import opened Text
  import opened Tokenising
  import opened Commands
  import opened Sessions

  /** The adapter's fields, the session it drives and what it has written to the port. */
  datatype Serial = Serial(buffer: string, rebootRequested: bool, session: Session, written: seq<Response>) {

    function HandledLine(line: string): Serial {
      if line == "" then this
      else
        var result := session.ResultOf(Parsed(line));
        this.(session := session.Applied(Parsed(line)),
              written := written + [result.response],
              rebootRequested := rebootRequested || result.rebootRequested)
    }

    /** One poll of a port holding `input`, and the input left unread. */
    function Polled(input: string): (Serial, string)
      decreases |input|
    {
      if input == "" then (this, "")
      else if input[0] == '\n' then
        var next := HandledLine(buffer).(buffer := "");
        if next.rebootRequested then (next, input[1..]) else next.Polled(input[1..])
      else if input[0] != '\r' then this.(buffer := buffer + [input[0]]).Polled(input[1..])
      else Polled(input[1..])
    }
  }

  /** The serial port: bytes still to be read, responses written. */
  class UartPort {
    var input: string
    var written: seq<Response>

    constructor ()
      ensures input == "" && written == []
    {
      input, written := "", [];
    }

    method Available() returns (available: bool)
      ensures available <==> input != ""
    {
      available := input != "";
    }

    method Read() returns (c: char)
      requires input != ""
      modifies this
      ensures c == old(input)[0] && input == old(input)[1..] && written == old(written)
    {
      c := input[0];
      input := input[1..];
    }

    method Write(response: Response)
      modifies this
      ensures written == old(written) + [response] && input == old(input)
    {
      written := written + [response];
    }
  }

  class SerialCommissioningAdapter {
    const uart: UartPort
    const session: CommissioningSession
    var buffer: string
    var rebootRequested: bool

    ghost function Value(): Serial
      reads this, uart, session, session.store
    {
      Serial(buffer, rebootRequested, session.Value(), uart.written)
    }

    constructor (uart: UartPort, session: CommissioningSession)
      ensures this.uart == uart && this.session == session
      ensures Value() == Serial("", false, session.Value(), uart.written)
    {
      this.uart, this.session := uart, session;
      buffer, rebootRequested := "", false;
    }

    method Poll()
      modifies this, uart, session, session.store
      ensures (Value(), uart.input) == old(Value()).Polled(old(uart.input))
    {
      hide Serial.HandledLine;
      ghost var start, input := Value(), uart.input;
      while true
        invariant start.Polled(input) == Value().Polled(uart.input)
        decreases |uart.input|
      {
        var available := uart.Available();
        if !available {
          break;
        }
        var c := uart.Read();
        if c == '\n' {
          HandleLine(buffer);
          buffer := "";
          if rebootRequested {
            return;
          }
        } else if c != '\r' {
          buffer := buffer + [c];
        }
      }
    }

    method HandleLine(line: string)
      modifies this, uart, session, session.store
      ensures Value() == old(Value()).HandledLine(line) && uart.input == old(uart.input)
    {
      if line == "" {
        return;
      }
      var command := Parse(line);
      var result := session.Apply(command);
      uart.Write(result.response);
      if result.rebootRequested {
        rebootRequested := true;
      }
    }
  }

  // ----- What a stream of bytes says -----------------------------------------------------------------

  predicate NotNewline(c: char) {
    c != '\n'
  }

  function NoReturns(stream: string): string {
    if stream == "" then ""
    else (if stream[0] == '\r' then "" else [stream[0]]) + NoReturns(stream[1..])
  }

  /** The complete lines of a text, without their newlines. */
  function Lines(text: string): seq<string>
    decreases |text|
  {
    var n := Span(text, NotNewline);
    if n == |text| then [] else [text[..n]] + Lines(text[n + 1..])
  }

  /** What follows the last newline. */
  function Trailing(text: string): string
    decreases |text|
  {
    var n := Span(text, NotNewline);
    if n == |text| then text else Trailing(text[n + 1..])
  }

  function Terminated(lines: seq<string>): string {
    if lines == [] then "" else lines[0] + "\n" + Terminated(lines[1..])
  }

  /** Lines and Trailing are the one way to cut a text at its newlines. */
  lemma {:induction false} LinesOfTerminated(lines: seq<string>, rest: string)
    requires forall i :: 0 <= i < |lines| ==> All(lines[i], NotNewline)
    requires All(rest, NotNewline)
    ensures Lines(Terminated(lines) + rest) == lines && Trailing(Terminated(lines) + rest) == rest
  {
    if lines == [] {
      assert "" + rest == rest && rest[..|rest|] == rest;
      SpanIsUnique(rest, NotNewline, |rest|);
      return;
    }
    hide Lines, Trailing;
    var tail := lines[1..];
    LinesOfTerminated(tail, rest);
    assert Terminated(lines) == lines[0] + "\n" + Terminated(tail);
    hide Terminated;
    Associate(lines[0] + "\n", Terminated(tail), rest);
    LinesCons(lines[0], Terminated(tail) + rest);
    assert lines == [lines[0]] + tail;
  }

  lemma LinesCons(line: string, more: string)
    requires All(line, NotNewline)
    ensures Lines(line + "\n" + more) == [line] + Lines(more)
    ensures Trailing(line + "\n" + more) == Trailing(more)
  {
    var text := line + "\n" + more;
    assert text[..|line|] == line && text[|line| + 1..] == more && text[|line|] == '\n';
    SpanIsUnique(text, NotNewline, |line|);
  }

  /** How many of the lines are served: up to and including the first that asks for a reboot. */
  function Served(lines: seq<string>): (n: nat)
    ensures n <= |lines|
  {
    if lines == [] then 0 else if Parsed(lines[0]).Reboot? then 1 else 1 + Served(lines[1..])
  }

  /** The commands of the lines that are not empty. */
  function CommandsOf(lines: seq<string>): (commands: seq<Command>)
    ensures AllWellFormed(commands)
  {
    if lines == [] then []
    else (if lines[0] == "" then [] else [Parsed(lines[0])]) + CommandsOf(lines[1..])
  }

  predicate AllWellFormed(commands: seq<Command>) {
    forall i :: 0 <= i < |commands| ==> commands[i].WellFormed()
  }

  /** The session after a sequence of commands, and its response to each. */
  function SessionAfter(s: Session, commands: seq<Command>): Session
    requires AllWellFormed(commands)
    decreases |commands|
  {
    if commands == [] then s else SessionAfter(s.Applied(commands[0]), commands[1..])
  }

  function ResponsesTo(s: Session, commands: seq<Command>): (responses: seq<Response>)
    requires AllWellFormed(commands)
    ensures |responses| == |commands|
    decreases |commands|
  {
    if commands == [] then []
    else [s.ResultOf(commands[0]).response] + ResponsesTo(s.Applied(commands[0]), commands[1..])
  }

  /** What remains of a stream after its first `n` newlines. */
  function AfterNewlines(stream: string, n: nat): string {
    if n == 0 || stream == "" then stream
    else AfterNewlines(stream[1..], if stream[0] == '\n' then n - 1 else n)
  }

  predicate AsksReboot(lines: seq<string>) {
    exists i :: 0 <= i < |lines| && Parsed(lines[i]).Reboot?
  }

  /** What the lines served do to the session and what is written for them. */
  function AfterLines(st: Serial, lines: seq<string>, buffer: string): Serial {
    var commands := CommandsOf(lines[..Served(lines)]);
    Serial(buffer, AsksReboot(lines), SessionAfter(st.session, commands),
           st.written + ResponsesTo(st.session, commands))
  }

  /** What a poll of a whole stream should come to, told by the lines of the text it completes. */
  function Expected(st: Serial, stream: string): (Serial, string) {
    var text := st.buffer + NoReturns(stream);
    var lines := Lines(text);
    if AsksReboot(lines) then (AfterLines(st, lines, ""), AfterNewlines(stream, Served(lines)))
    else (AfterLines(st, lines, Trailing(text)), "")
  }

  lemma AfterNoLines(st: Serial, buffer: string)
    requires !st.rebootRequested
    ensures AfterLines(st, [], buffer) == st.(buffer := buffer) && !AsksReboot([])
  {
  }

  lemma EmptyLineIsInvalid()
    ensures Parsed("") == Invalid(EmptyCommand)
  {
    assert Tokens("") == [];
  }

  lemma AsksFirst(line: string, lines: seq<string>)
    ensures AsksReboot([line] + lines) <==> Parsed(line).Reboot? || AsksReboot(lines)
    ensures Served([line] + lines) == if Parsed(line).Reboot? then 1 else 1 + Served(lines)
  {
    hide Parsed;
    var all := [line] + lines;
    assert all[0] == line && all[1..] == lines;
    if AsksReboot(lines) {
      var i :| 0 <= i < |lines| && Parsed(lines[i]).Reboot?;
      assert Parsed(all[i + 1]).Reboot?;
    }
  }

  function CommandOf(line: string): (commands: seq<Command>)
    ensures AllWellFormed(commands) && |commands| <= 1
  {
    if line == "" then [] else [Parsed(line)]
  }

  /** The commands served of a first line and the rest. */
  lemma ServedFirst(line: string, lines: seq<string>)
    ensures var all := [line] + lines;
            CommandsOf(all[..Served(all)]) ==
            CommandOf(line) + if Parsed(line).Reboot? then [] else CommandsOf(lines[..Served(lines)])
  {
    hide Parsed, AsksReboot;
    AsksFirst(line, lines);
    var all, n := [line] + lines, Served(lines);
    var served := all[..Served(all)];
    assert served[0] == line;
    assert served[1..] == if Parsed(line).Reboot? then [] else lines[..n];
  }

  /** A line handled is its command applied. */
  lemma HandledIsApplied(st: Serial, line: string)
    requires !st.rebootRequested
    ensures st.HandledLine(line) == Serial(st.buffer, Parsed(line).Reboot?, SessionAfter(st.session, CommandOf(line)),
                                           st.written + ResponsesTo(st.session, CommandOf(line)))
  {
    hide Session.Applied;
    EmptyLineIsInvalid();
    hide Parsed;
    assert st.written + [] == st.written;
    if line != "" {
      assert CommandOf(line)[1..] == [];
    }
  }

  /** Serving a first line, then the rest. */
  lemma AfterFirstLine(st: Serial, line: string, lines: seq<string>, buffer: string)
    requires !st.rebootRequested
    ensures AfterLines(st, [line] + lines, buffer) ==
            if Parsed(line).Reboot? then st.HandledLine(line).(buffer := buffer)
            else AfterLines(st.HandledLine(line), lines, buffer)
  {
    hide Parsed, AsksReboot, Served, CommandsOf, CommandOf, SessionAfter, ResponsesTo, Serial.HandledLine;
    AsksFirst(line, lines);
    ServedFirst(line, lines);
    HandledIsApplied(st, line);
    var rest := if Parsed(line).Reboot? then [] else CommandsOf(lines[..Served(lines)]);
    CommandsFirst(st.session, CommandOf(line), rest);
    if Parsed(line).Reboot? {
      assert CommandOf(line) + [] == CommandOf(line);
    }
  }

  lemma CommandsFirst(s: Session, first: seq<Command>, rest: seq<Command>)
    requires |first| <= 1 && AllWellFormed(first) && AllWellFormed(rest)
    ensures AllWellFormed(first + rest)
    ensures SessionAfter(s, first + rest) == SessionAfter(SessionAfter(s, first), rest)
    ensures ResponsesTo(s, first + rest) == ResponsesTo(s, first) + ResponsesTo(SessionAfter(s, first), rest)
  {
    hide Session.Applied, Session.ResultOf;
    if first == [] {
      assert first + rest == rest;
    } else {
      assert (first + rest)[1..] == rest && first[1..] == [];
    }
  }

  // ----- The poll meets it --------------------------------------------------------------------------------

  /** The text of a stream that starts with a newline has the buffer as its first line. */
  lemma NewlineEndsLine(st: Serial, stream: string)
    requires All(st.buffer, NotNewline) && stream != "" && stream[0] == '\n'
    ensures var text, rest := st.buffer + NoReturns(stream), NoReturns(stream[1..]);
            Lines(text) == [st.buffer] + Lines(rest) && Trailing(text) == Trailing(rest)
  {
    hide Lines, Trailing;
    var rest := NoReturns(stream[1..]);
    assert NoReturns(stream) == "\n" + rest;
    hide NoReturns;
    Associate(st.buffer, "\n", rest);
    LinesCons(st.buffer, rest);
  }

  lemma NewlineMeetsExpectation(st: Serial, stream: string)
    requires !st.rebootRequested && All(st.buffer, NotNewline)
    requires stream != "" && stream[0] == '\n'
    ensures var next := st.HandledLine(st.buffer).(buffer := "");
            Expected(st, stream) == if next.rebootRequested then (next, stream[1..]) else Expected(next, stream[1..])
    ensures st.HandledLine(st.buffer).rebootRequested <==> Parsed(st.buffer).Reboot?
  {
    assert forall n: nat :: AfterNewlines(stream, n + 1) == AfterNewlines(stream[1..], n);
    assert AfterNewlines(stream[1..], 0) == stream[1..];
    HandledIsApplied(st, st.buffer);
    hide Lines, Trailing, NoReturns, AfterLines, AfterNewlines, AsksReboot, Served, Parsed, Serial.HandledLine;
    var rest, next := NoReturns(stream[1..]), st.HandledLine(st.buffer).(buffer := "");
    NewlineEndsLine(st, stream);
    AsksFirst(st.buffer, Lines(rest));
    assert next.buffer + rest == rest;
    if Parsed(st.buffer).Reboot? {
      AfterFirstLine(st, st.buffer, Lines(rest), "");
      assert AfterNewlines(stream, 0 + 1) == stream[1..];
    } else {
      var buffer := if AsksReboot(Lines(rest)) then "" else Trailing(rest);
      AfterFirstLine(st, st.buffer, Lines(rest), buffer);
      AfterIgnoresBuffer(st.HandledLine(st.buffer), next, Lines(rest), buffer);
      assert AfterNewlines(stream, Served(Lines(rest)) + 1) == AfterNewlines(stream[1..], Served(Lines(rest)));
    }
  }

  lemma AfterIgnoresBuffer(a: Serial, b: Serial, lines: seq<string>, buffer: string)
    requires a.(buffer := "") == b.(buffer := "")
    ensures AfterLines(a, lines, buffer) == AfterLines(b, lines, buffer)
  {
  }

  /** Main result: a poll serves exactly the complete lines of the stream, in order, up to the
      first that asks for a reboot: the session receives the commands of the lines that are not
      empty, one response is written for each, the buffer keeps the trailing partial line, and
      after a rebooting line nothing more is read. */
  lemma {:induction false} PollMeetsExpectation(st: Serial, stream: string)
    requires !st.rebootRequested && All(st.buffer, NotNewline)
    ensures st.Polled(stream) == Expected(st, stream)
    decreases |stream|
  {
    hide Expected, NoReturns, Serial.HandledLine;
    if stream == "" {
      NothingToRead(st);
    } else if stream[0] == '\n' {
      var next := st.HandledLine(st.buffer).(buffer := "");
      NewlineMeetsExpectation(st, stream);
      if !next.rebootRequested {
        PollMeetsExpectation(next, stream[1..]);
      }
    } else if stream[0] == '\r' {
      PollMeetsExpectation(st, stream[1..]);
      ReturnIsDropped(st, stream);
    } else {
      PollMeetsExpectation(st.(buffer := st.buffer + [stream[0]]), stream[1..]);
      ByteIsBuffered(st, stream);
    }
  }

  lemma NothingToRead(st: Serial)
    requires !st.rebootRequested && All(st.buffer, NotNewline)
    ensures Expected(st, "") == (st, "")
  {
    assert Terminated([]) + st.buffer == st.buffer && st.buffer + "" == st.buffer;
    LinesOfTerminated([], st.buffer);
    AfterNoLines(st, st.buffer);
  }

  /** A byte other than a newline only moves the text along. */
  lemma AfterSkips(st: Serial, next: Serial, stream: string)
    requires stream != "" && stream[0] != '\n' && st.(buffer := "") == next.(buffer := "")
    requires st.buffer + NoReturns(stream) == next.buffer + NoReturns(stream[1..])
    ensures Expected(st, stream) == Expected(next, stream[1..])
  {
    var text := st.buffer + NoReturns(stream);
    hide Lines, Trailing, AfterLines, NoReturns;
    AfterIgnoresBuffer(st, next, Lines(text), "");
    AfterIgnoresBuffer(st, next, Lines(text), Trailing(text));
    assert AsksReboot(Lines(text)) ==> Served(Lines(text)) > 0 by {
      if AsksReboot(Lines(text)) {
        assert Lines(text) != [];
      }
    }
  }

  lemma ReturnIsDropped(st: Serial, stream: string)
    requires stream != "" && stream[0] == '\r'
    ensures Expected(st, stream) == Expected(st, stream[1..])
  {
    hide Expected;
    assert "" + NoReturns(stream[1..]) == NoReturns(stream[1..]);
    AfterSkips(st, st, stream);
  }

  lemma ByteIsBuffered(st: Serial, stream: string)
    requires stream != "" && stream[0] != '\r' && stream[0] != '\n'
    ensures Expected(st, stream) == Expected(st.(buffer := st.buffer + [stream[0]]), stream[1..])
  {
    hide Expected;
    var longer := st.(buffer := st.buffer + [stream[0]]);
    assert NoReturns(stream) == [stream[0]] + NoReturns(stream[1..]);
    hide NoReturns;
    Associate(st.buffer, [stream[0]], NoReturns(stream[1..]));
    AfterSkips(st, longer, stream);
  }

  // ----- Polls of a stream that arrives in pieces -----------------------------------------------------------

  function Flatten(batches: seq<string>): string {
    if batches == [] then "" else batches[0] + Flatten(batches[1..])
  }

  /** The main loop: each batch joins what is unread and is polled, until a reboot is asked for,
      after which the device restarts and polls no more. */
  function RunPolls(st: Serial, unread: string, batches: seq<string>): (Serial, string)
    decreases |batches|
  {
    if batches == [] || st.rebootRequested then (st, unread + Flatten(batches))
    else
      var (next, left) := st.Polled(unread + batches[0]);
      RunPolls(next, left, batches[1..])
  }

  lemma {:induction false} PollSplits(st: Serial, a: string, b: string)
    requires !st.rebootRequested
    ensures var (next, left) := st.Polled(a);
            if next.rebootRequested then st.Polled(a + b) == (next, left + b)
            else left == "" && st.Polled(a + b) == next.Polled(b)
    decreases |a|
  {
    hide Serial.HandledLine;
    if a == "" {
      assert a + b == b;
      return;
    }
    assert (a + b)[0] == a[0] && (a + b)[1..] == a[1..] + b;
    if a[0] == '\n' {
      var next := st.HandledLine(st.buffer).(buffer := "");
      if !next.rebootRequested {
        PollSplits(next, a[1..], b);
      }
    } else if a[0] == '\r' {
      PollSplits(st, a[1..], b);
    } else {
      PollSplits(st.(buffer := st.buffer + [a[0]]), a[1..], b);
    }
  }

  /** Main result: however a stream is cut into poll batches, the outcome is that of one poll of
      the whole stream, and so what its lines say. */
  lemma {:induction false} ChunkingIsIrrelevant(st: Serial, batches: seq<string>)
    requires !st.rebootRequested && All(st.buffer, NotNewline)
    ensures RunPolls(st, "", batches) == st.Polled(Flatten(batches))
    ensures RunPolls(st, "", batches) == Expected(st, Flatten(batches))
    decreases |batches|
  {
    PollMeetsExpectation(st, Flatten(batches));
    assert "" + "" == "";
    if batches != [] {
      var first, rest := batches[0], batches[1..];
      var (next, left) := st.Polled(first);
      assert "" + first == first && left + "" == left;
      PollSplits(st, first, Flatten(rest));
      if !next.rebootRequested {
        PollMeetsExpectation(st, first);
        TrailingHasNoNewline(st.buffer + NoReturns(first));
        ChunkingIsIrrelevant(next, rest);
      }
    }
  }

  lemma {:induction false} TrailingHasNoNewline(text: string)
    ensures All(Trailing(text), NotNewline)
    decreases |text|
  {
    var n := Span(text, NotNewline);
    if n < |text| {
      TrailingHasNoNewline(text[n + 1..]);
    } else {
      assert text[..n] == text;
    }
  }
}
