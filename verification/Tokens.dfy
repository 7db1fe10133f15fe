/** The tokeniser of CommandLineParser.h: words separated by whitespace, double quotes holding
    a word together. */
module Tokenising {
  import opened Text

  function Tokens(line: string): seq<string>
    decreases |line|
  {
    if line == "" then []
    else if IsSpace(line[0]) then Tokens(line[1..])
    else if line[0] == '"' then
      var n := Span(line[1..], NotQuote);
      [line[1..1 + n]] + Tokens(if 1 + n < |line| then line[n + 2..] else "")
    else
      var n := Span(line, NotSpace);
      SpanStarts(line);
      [line[..n]] + Tokens(line[n..])
  }

  lemma SpanStarts(line: string)
    requires line != "" && NotSpace(line[0])
    ensures Span(line, NotSpace) > 0
  {
  }

  /** The tokens still to come at index `i`. */
  function TokensFrom(line: string, i: nat): seq<string>
    requires i <= |line|
  {
    Tokens(line[i..])
  }

  lemma SpaceStep(line: string, i: nat)
    requires i < |line| && IsSpace(line[i])
    ensures TokensFrom(line, i) == TokensFrom(line, i + 1)
  {
    assert line[i..][1..] == line[i + 1..];
  }

  lemma QuotedStep(line: string, start: nat, end: nat)
    requires 0 < start <= end <= |line| && line[start - 1] == '"'
    requires end - start == Span(line[start..], NotQuote)
    ensures TokensFrom(line, start - 1) == [line[start..end]] + TokensFrom(line, if end < |line| then end + 1 else end)
  {
    var rest := line[start - 1..];
    assert rest[1..] == line[start..] && rest[1..1 + (end - start)] == line[start..end];
    if end < |line| {
      assert rest[end - start + 2..] == line[end + 1..];
    } else {
      assert line[end..] == "";
    }
  }

  lemma WordStep(line: string, start: nat, end: nat)
    requires start < |line| && start <= end <= |line| && NotSpace(line[start]) && line[start] != '"'
    requires end - start == Span(line[start..], NotSpace)
    ensures start < end && TokensFrom(line, start) == [line[start..end]] + TokensFrom(line, end)
  {
    var rest := line[start..];
    SpanStarts(rest);
    assert rest[..end - start] == line[start..end] && rest[end - start..] == line[end..];
  }

  /** The scanning loops: where the stretch of characters before a quote, or a space, ends. */
  method ScanQuoted(line: string, start: nat) returns (i: nat)
    requires start <= |line|
    ensures start <= i <= |line| && i - start == Span(line[start..], NotQuote)
  {
    i := start;
    while i < |line| && line[i] != '"'
      invariant start <= i <= |line| && All(line[start..i], NotQuote)
    {
      assert line[start..i + 1] == line[start..i] + [line[i]];
      i := i + 1;
    }
    assert line[start..][..i - start] == line[start..i];
    SpanIsUnique(line[start..], NotQuote, i - start);
  }

  method ScanWord(line: string, start: nat) returns (i: nat)
    requires start <= |line|
    ensures start <= i <= |line| && i - start == Span(line[start..], NotSpace)
  {
    i := start;
    while i < |line| && !IsSpace(line[i])
      invariant start <= i <= |line| && All(line[start..i], NotSpace)
    {
      assert line[start..i + 1] == line[start..i] + [line[i]];
      i := i + 1;
    }
    assert line[start..][..i - start] == line[start..i];
    SpanIsUnique(line[start..], NotSpace, i - start);
  }

  method Tokenize(line: string) returns (tokens: seq<string>)
    ensures tokens == Tokens(line)
  {
    tokens := [];
    var i, n := 0, |line|;
    assert line[0..] == line && line[n..] == "" && TokensFrom(line, n) == [];
    hide Tokens, TokensFrom, Span;
    while i < n
      invariant i <= n && tokens + TokensFrom(line, i) == TokensFrom(line, 0)
      decreases n - i
    {
      i := SkipSpaces(line, i);
      if i >= n {
        break;
      }
      var token;
      token, i := ReadToken(line, i);
      ghost var before := tokens;
      tokens := tokens + [token];
      assert tokens + TokensFrom(line, i) == before + ([token] + TokensFrom(line, i));
    }
    assert TokensFrom(line, 0) == Tokens(line) by {
      assert line[0..] == line;
    }
  }

  method SkipSpaces(line: string, start: nat) returns (i: nat)
    requires start <= |line|
    ensures start <= i <= |line| && (i < |line| ==> NotSpace(line[i]))
    ensures TokensFrom(line, i) == TokensFrom(line, start)
  {
    i := start;
    while i < |line| && IsSpace(line[i])
      invariant start <= i <= |line| && TokensFrom(line, i) == TokensFrom(line, start)
    {
      SpaceStep(line, i);
      i := i + 1;
    }
  }

  method ReadToken(line: string, start: nat) returns (token: string, i: nat)
    requires start < |line| && NotSpace(line[start])
    ensures start < i <= |line| && TokensFrom(line, start) == [token] + TokensFrom(line, i)
  {
    if line[start] == '"' {
      var end := ScanQuoted(line, start + 1);
      QuotedStep(line, start + 1, end);
      token, i := line[start + 1..end], if end < |line| then end + 1 else end;
    } else {
      var end := ScanWord(line, start);
      WordStep(line, start, end);
      token, i := line[start..end], end;
    }
  }

  // ----- Printing what the tokeniser reads ---------------------------------------------------------

  /** A token as it may be written on a line: as it stands, or between quotes. */
  datatype Word = Bare(text: string) | Quoted(text: string) {
    predicate Readable() {
      match this
      case Bare(_) => IsBare(text)
      case Quoted(_) => All(text, NotQuote)
    }

    function Written(): string {
      match this
      case Bare(_) => text
      case Quoted(_) => "\"" + text + "\""
    }
  }

  predicate IsBare(text: string) {
    text != "" && text[0] != '"' && All(text, NotSpace)
  }

  /** Words joined by single spaces. */
  function Render(words: seq<Word>): string {
    if words == [] then ""
    else if |words| == 1 then words[0].Written()
    else words[0].Written() + " " + Render(words[1..])
  }

  function Texts(words: seq<Word>): seq<string> {
    seq(|words|, i requires 0 <= i < |words| => words[i].text)
  }

  lemma BareThen(text: string, rest: string)
    requires IsBare(text) && (rest == "" || IsSpace(rest[0]))
    ensures Tokens(text + rest) == [text] + Tokens(rest)
  {
    var line := text + rest;
    assert line[..|text|] == text && line[|text|..] == rest;
    assert !IsSpace(line[0]);
    SpanIsUnique(line, NotSpace, |text|);
  }

  lemma QuotedThen(text: string, rest: string)
    requires All(text, NotQuote)
    ensures Tokens("\"" + text + "\"" + rest) == [text] + Tokens(rest)
  {
    var line := "\"" + text + "\"" + rest;
    assert line[1..] == text + "\"" + rest;
    assert line[1..][..|text|] == text;
    SpanIsUnique(line[1..], NotQuote, |text|);
    assert line[1..1 + |text|] == text && line[|text| + 2..] == rest;
  }

  lemma SpaceThen(rest: string)
    ensures Tokens(" " + rest) == Tokens(rest)
  {
    assert (" " + rest)[1..] == rest;
  }

  lemma WordThen(word: Word, rest: string)
    requires word.Readable() && (rest == "" || IsSpace(rest[0]))
    ensures Tokens(word.Written() + rest) == [word.text] + Tokens(rest)
  {
    match word
    case Bare(text) => BareThen(text, rest);
    case Quoted(text) => QuotedThen(text, rest);
  }

  lemma RenderCons(word: Word, rest: seq<Word>)
    requires rest != []
    ensures Render([word] + rest) == word.Written() + " " + Render(rest)
  {
    assert ([word] + rest)[1..] == rest;
  }

  lemma TokensOfRenderCons(word: Word, rest: seq<Word>)
    requires rest != [] && word.Readable() && Tokens(Render(rest)) == Texts(rest)
    ensures Tokens(Render([word] + rest)) == [word.text] + Texts(rest)
  {
    hide Tokens, Render, Word.Readable, Word.Written, Texts;
    var more := " " + Render(rest);
    RenderCons(word, rest);
    Associate(word.Written(), " ", Render(rest));
    SpaceThen(Render(rest));
    WordThen(word, more);
  }

  /** Main result: tokenising space-joined readable words gives the words back. */
  lemma {:induction false} TokensOfRender(words: seq<Word>)
    requires forall i :: 0 <= i < |words| ==> words[i].Readable()
    ensures Tokens(Render(words)) == Texts(words)
  {
    if |words| == 1 {
      WordThen(words[0], "");
      assert words[0].Written() + "" == words[0].Written();
    } else if |words| > 1 {
      var rest := words[1..];
      assert words == [words[0]] + rest && Texts(words) == [words[0].text] + Texts(rest);
      TokensOfRender(rest);
      TokensOfRenderCons(words[0], rest);
    }
  }

  /** How to write a token: bare if that reads back, else quoted. */
  function WordFor(token: string): Word {
    if IsBare(token) then Bare(token) else Quoted(token)
  }

  lemma {:induction false} TokensAreReadable(line: string)
    ensures forall i :: 0 <= i < |Tokens(line)| ==> WordFor(Tokens(line)[i]).Readable()
    decreases |line|
  {
    if line == "" {
    } else if IsSpace(line[0]) {
      TokensAreReadable(line[1..]);
    } else if line[0] == '"' {
      var n := Span(line[1..], NotQuote);
      assert line[1..1 + n] == line[1..][..n];
      TokensAreReadable(if 1 + n < |line| then line[n + 2..] else "");
    } else {
      var n := Span(line, NotSpace);
      SpanStarts(line);
      TokensAreReadable(line[n..]);
    }
  }

  function WordsFor(tokens: seq<string>): seq<Word> {
    seq(|tokens|, i requires 0 <= i < |tokens| => WordFor(tokens[i]))
  }

  /** Which token sequences lines have: exactly those of tokens that can be written; and every
      line has the same tokens as its normal form. */
  lemma TokenSequencesAreTheReadable(tokens: seq<string>)
    ensures (exists line :: Tokens(line) == tokens) <==>
            forall i :: 0 <= i < |tokens| ==> WordFor(tokens[i]).Readable()
    ensures (exists line :: Tokens(line) == tokens) ==> Tokens(Render(WordsFor(tokens))) == tokens
  {
    forall line | Tokens(line) == tokens
      ensures forall i :: 0 <= i < |tokens| ==> WordFor(tokens[i]).Readable()
    {
      TokensAreReadable(line);
    }
    if forall i :: 0 <= i < |tokens| ==> WordFor(tokens[i]).Readable() {
      TokensOfRender(WordsFor(tokens));
      assert Texts(WordsFor(tokens)) == tokens;
    }
  }

  // ----- What separates words, and quotations left open ---------------------------------------------

  /** A run of the six characters that separate words: blank, tab, line feed, vertical tab, form
      feed, carriage return. */
  predicate IsGap(gap: string) {
    forall k :: 0 <= k < |gap| ==> gap[k] as int == 32 || 9 <= gap[k] as int <= 13
  }

  /** The words with these gaps before, between and after them. */
  function Spread(words: seq<Word>, gaps: seq<string>): string
    requires |gaps| == |words| + 1
  {
    if words == [] then gaps[0] else gaps[0] + words[0].Written() + Spread(words[1..], gaps[1..])
  }

  /** The six characters are skipped, and only they are. */
  lemma {:induction false} GapThen(gap: string, rest: string)
    requires IsGap(gap)
    ensures Tokens(gap + rest) == Tokens(rest)
  {
    if gap == "" {
      assert gap + rest == rest;
    } else {
      assert (gap + rest)[1..] == gap[1..] + rest;
      GapThen(gap[1..], rest);
    }
  }

  lemma OnlyGapsAreSkipped(c: char)
    requires c != '"'
    ensures Tokens([c]) == if IsGap([c]) then [] else [[c]]
  {
    if IsGap([c]) {
      assert [c] + "" == [c];
      GapThen([c], "");
      assert Tokens("") == [];
    } else {
      BareThen([c], "");
      assert [c] + "" == [c] && Tokens("") == [];
    }
  }

  lemma SpreadWordThen(gap: string, word: Word, more: string)
    requires IsGap(gap) && word.Readable() && (more == "" || IsSpace(more[0]))
    ensures Tokens(gap + word.Written() + more) == [word.text] + Tokens(more)
  {
    hide Tokens, Word.Written, Word.Readable;
    Associate(gap, word.Written(), more);
    GapThen(gap, word.Written() + more);
    WordThen(word, more);
  }

  /** Gaps that can stand before, between and after words: any before, some between. */
  predicate Separates(gaps: seq<string>) {
    (forall i :: 0 <= i < |gaps| ==> IsGap(gaps[i])) && forall i :: 0 < i < |gaps| - 1 ==> gaps[i] != ""
  }

  lemma SpreadOpens(words: seq<Word>, gaps: seq<string>, rest: string)
    requires |gaps| == |words| + 1 && Separates(gaps)
    requires words != [] ==> gaps[0] != ""
    requires words == [] && gaps[0] == "" ==> rest == ""
    ensures var text := Spread(words, gaps) + rest; text == "" || IsSpace(text[0])
  {
    assert IsGap(gaps[0]);
  }

  lemma SpreadCons(words: seq<Word>, gaps: seq<string>, rest: string)
    requires |gaps| == |words| + 1 && words != []
    ensures Spread(words, gaps) + rest == gaps[0] + words[0].Written() + (Spread(words[1..], gaps[1..]) + rest)
    ensures Texts(words) == [words[0].text] + Texts(words[1..])
  {
    hide Word.Written;
    Associate(gaps[0] + words[0].Written(), Spread(words[1..], gaps[1..]), rest);
  }

  /** Words spread over a line in any way come back as their texts, followed by whatever stands
      after the last gap. */
  lemma {:induction false} SpreadThen(words: seq<Word>, gaps: seq<string>, rest: string)
    requires |gaps| == |words| + 1 && Separates(gaps)
    requires forall i :: 0 <= i < |words| ==> words[i].Readable()
    requires words != [] && gaps[|words|] == "" ==> rest == ""
    ensures Tokens(Spread(words, gaps) + rest) == Texts(words) + Tokens(rest)
  {
    hide Tokens, Word.Written, Word.Readable, IsGap;
    if words == [] {
      GapThen(gaps[0], rest);
      assert [] + Tokens(rest) == Tokens(rest);
    } else {
      var tail, after := words[1..], gaps[1..];
      assert Separates(after) && (tail != [] ==> after[0] != "");
      SpreadThen(tail, after, rest);
      SpreadOpens(tail, after, rest);
      SpreadCons(words, gaps, rest);
      SpreadWordThen(gaps[0], words[0], Spread(tail, after) + rest);
      assert Texts(words) + Tokens(rest) == [words[0].text] + (Texts(tail) + Tokens(rest));
    }
  }

  lemma OpenQuotation(text: string)
    requires All(text, NotQuote)
    ensures Tokens("\"" + text) == [text]
  {
    var line := "\"" + text;
    assert line[1..] == text && text[..|text|] == text;
    SpanIsUnique(text, NotQuote, |text|);
    assert line[1..1 + |text|] == text && Tokens("") == [];
  }

  /** Main result: however words are spread over a line by the six space characters they read back,
      and a quotation left open at the end of the line is one more token: all that follows it. */
  lemma SpreadWordsReadBack(words: seq<Word>, gaps: seq<string>, open: string)
    requires |gaps| == |words| + 1 && Separates(gaps) && All(open, NotQuote)
    requires forall i :: 0 <= i < |words| ==> words[i].Readable()
    ensures Tokens(Spread(words, gaps)) == Texts(words)
    ensures words == [] || gaps[|words|] != "" ==> Tokens(Spread(words, gaps) + "\"" + open) == Texts(words) + [open]
  {
    hide Tokens, Spread, Texts;
    SpreadThen(words, gaps, "");
    assert Spread(words, gaps) + "" == Spread(words, gaps);
    NoTokensInNothing();
    assert Texts(words) + [] == Texts(words);
    if words == [] || gaps[|words|] != "" {
      SpreadThen(words, gaps, "\"" + open);
      OpenQuotation(open);
      Associate(Spread(words, gaps), "\"", open);
    }
  }

  lemma NoTokensInNothing()
    ensures Tokens("") == []
  {
  }
}
