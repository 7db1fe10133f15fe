/** The string functions of SetupFormRenderer.h: HTML escaping and dotted-quad splitting. */
module SetupForms {
  import opened Text

  // ----- HTML escaping --------------------------------------------------------------------------------

  /** What a character is replaced by. */
  function Reference(c: char): (reference: string)
    ensures reference != ""
  {
    if c == '&' then "&amp;"
    else if c == '<' then "&lt;"
    else if c == '>' then "&gt;"
    else if c == '"' then "&quot;"
    else if c == '\'' then "&#39;"
    else [c]
  }

  function Escaped(text: string): string {
    if text == "" then "" else Reference(text[0]) + Escaped(text[1..])
  }

  lemma EscapedStep(text: string, i: nat, before: string)
    requires i < |text|
    ensures before + Escaped(text[i..]) == before + Reference(text[i]) + Escaped(text[i + 1..])
  {
    assert text[i..][1..] == text[i + 1..];
    Associate(before, Reference(text[i]), Escaped(text[i + 1..]));
  }

  method EscapeHtml(text: string) returns (escaped: string)
    ensures escaped == Escaped(text) && SafeToEmbed(escaped) && Unescaped(escaped) == text
  {
    hide Escaped, SafeToEmbed, Unescaped;
    escaped := "";
    assert text[0..] == text && text[|text|..] == "";
    for i := 0 to |text|
      invariant escaped + Escaped(text[i..]) == Escaped(text)
    {
      EscapedStep(text, i, escaped);
      match text[i] {
        case '&' => escaped := escaped + "&amp;";
        case '<' => escaped := escaped + "&lt;";
        case '>' => escaped := escaped + "&gt;";
        case '"' => escaped := escaped + "&quot;";
        case '\'' => escaped := escaped + "&#39;";
        case c => escaped := escaped + [c];
      }
    }
    EscapedOfNothing();
    EscapingIsInvertible(text);
    EscapedIsSafe(text);
  }

  lemma EscapedOfNothing()
    ensures Escaped("") == ""
  {
  }

  const SPECIALS := "&<>\"'"

  /** The special character whose reference the text opens with, if it opens with one. */
  function Opening(s: string): (c: char)
    ensures c in SPECIALS ==> Reference(c) <= s
    ensures c !in SPECIALS ==> c == 'x' && forall d :: d in SPECIALS ==> !(Reference(d) <= s)
  {
    if "&amp;" <= s then '&'
    else if "&lt;" <= s then '<'
    else if "&gt;" <= s then '>'
    else if "&quot;" <= s then '"'
    else if "&#39;" <= s then '\''
    else 'x'
  }

  /** A reader of the five references, left to right; anything else stands for itself. */
  function Unescaped(s: string): string {
    if s == "" then ""
    else
      var c := Opening(s);
      if c in SPECIALS then [c] + Unescaped(s[|Reference(c)|..]) else [s[0]] + Unescaped(s[1..])
  }

  /** Nothing in the text can end an attribute or open a tag, and every ampersand opens one of the
      five references. */
  ghost predicate SafeToEmbed(s: string) {
    forall k :: 0 <= k < |s| ==>
      s[k] != '<' && s[k] != '>' && s[k] != '"' && s[k] != '\'' && (s[k] == '&' ==> Opening(s[k..]) in SPECIALS)
  }

  lemma OpeningOfReference(c: char, rest: string)
    ensures c in SPECIALS ==> Opening(Reference(c) + rest) == c
    ensures c !in SPECIALS ==> Reference(c) == [c] && Opening([c] + rest) !in SPECIALS
  {
    var s := Reference(c) + rest;
    assert c in SPECIALS ==> s[0] == '&' && s[1] == Reference(c)[1] && s[2] == Reference(c)[2];
    assert c in SPECIALS ==> Reference(c) <= s;
    assert c !in SPECIALS ==> s[0] == c != '&';
  }

  /** Main result: reading an escaped text gives the text back, so escaping is injective. */
  lemma {:induction false} EscapingIsInvertible(text: string)
    ensures Unescaped(Escaped(text)) == text
  {
    if text != "" {
      var c, rest := text[0], Escaped(text[1..]);
      EscapingIsInvertible(text[1..]);
      OpeningOfReference(c, rest);
      assert (Reference(c) + rest)[|Reference(c)|..] == rest;
    }
  }

  lemma EscapedOne(c: char)
    ensures Escaped([c]) == Reference(c)
  {
    assert [c][1..] == "" && Reference(c) + "" == Reference(c);
  }

  lemma {:induction false} EscapedConcat(text: string, more: string)
    ensures Escaped(text + more) == Escaped(text) + Escaped(more)
  {
    hide Reference;
    if text == "" {
      assert text + more == more && "" + Escaped(more) == Escaped(more);
    } else {
      assert (text + more)[1..] == text[1..] + more;
      EscapedConcat(text[1..], more);
      Associate(Reference(text[0]), Escaped(text[1..]), Escaped(more));
    }
  }

  /** Escaping goes character by character: the five special ones become these references, all
      others stay. */
  lemma EscapedCharByChar(text: string, c: char)
    ensures Escaped(text + [c]) ==
            Escaped(text) + (match c
                             case '&' => "&amp;"
                             case '<' => "&lt;"
                             case '>' => "&gt;"
                             case '"' => "&quot;"
                             case '\'' => "&#39;"
                             case _ => [c])
  {
    hide Escaped;
    EscapedConcat(text, [c]);
    EscapedOne(c);
  }

  predicate Plain(c: char) {
    c !in SPECIALS
  }

  /** A reference is an ampersand and plain characters; what needs no reference is plain. */
  lemma ReferenceShape(c: char)
    ensures c in SPECIALS ==> Reference(c)[0] == '&' && All(Reference(c)[1..], Plain)
    ensures c !in SPECIALS ==> Reference(c) == [c]
  {
  }

  lemma SafeReferenceThen(c: char, rest: string)
    requires SafeToEmbed(rest)
    ensures SafeToEmbed(Reference(c) + rest)
  {
    var s, n := Reference(c) + rest, |Reference(c)|;
    ReferenceShape(c);
    OpeningOfReference(c, rest);
    hide Reference, Opening;
    assert s[0..] == s && s[0] == Reference(c)[0];
    forall k | 0 < k < n
      ensures Plain(s[k])
    {
      assert s[k] == Reference(c)[1..][k - 1];
    }
    forall k | n <= k < |s|
      ensures s[k] == rest[k - n] && s[k..] == rest[k - n..]
    {
    }
  }

  lemma {:induction false} EscapedIsSafe(text: string)
    ensures SafeToEmbed(Escaped(text))
  {
    if text != "" {
      EscapedIsSafe(text[1..]);
      SafeReferenceThen(text[0], Escaped(text[1..]));
    }
  }

  lemma SafeDrop(s: string, n: nat)
    requires SafeToEmbed(s) && n <= |s|
    ensures SafeToEmbed(s[n..])
  {
    assert forall k :: 0 <= k < |s| - n ==> s[n..][k..] == s[n + k..];
  }

  /** Main result: the escaped texts are exactly the safe ones, and each safe text is the escape
      of what it reads as. */
  lemma {:induction false} SafeTextsAreTheEscaped(s: string)
    ensures SafeToEmbed(s) <==> Escaped(Unescaped(s)) == s
    decreases |s|
  {
    if Escaped(Unescaped(s)) == s {
      EscapedIsSafe(Unescaped(s));
    }
    if SafeToEmbed(s) && s != "" {
      assert s[0..] == s;
      var c := Opening(s);
      var n := if c in SPECIALS then |Reference(c)| else 1;
      SafeDrop(s, n);
      SafeTextsAreTheEscaped(s[n..]);
      assert s == s[..n] + s[n..];
      assert Unescaped(s)[1..] == Unescaped(s[n..]);
    }
  }

  // ----- Dotted quads -----------------------------------------------------------------------------------

  predicate NotDot(c: char) {
    c != '.'
  }

  /** The parts of a text between its dots. */
  function DotParts(s: string): (parts: seq<string>)
    ensures |parts| >= 1
    decreases |s|
  {
    var n := Span(s, NotDot);
    if n == |s| then [s] else [s[..n]] + DotParts(s[n + 1..])
  }

  /** A digit string of length one to three and value at most 255. */
  predicate IsOctet(part: string) {
    1 <= |part| <= 3 && All(part, IsDigit) && NatValue(part) <= 255
  }

  const NO_OCTETS := ["", "", "", ""]

  /** The four parts of a dotted quad; four empty parts for anything else. */
  function Octets(host: string): (parts: seq<string>)
    ensures |parts| == 4
  {
    var parts := DotParts(host);
    if |parts| == 4 && IsOctet(parts[0]) && IsOctet(parts[1]) && IsOctet(parts[2]) && IsOctet(parts[3]) then parts
    else NO_OCTETS
  }

  /** How the portal puts the four boxes together. */
  function Joined(parts: seq<string>): string
    requires |parts| == 4
  {
    parts[0] + "." + parts[1] + "." + parts[2] + "." + parts[3]
  }

  lemma DotPartsCons(part: string, more: string)
    requires All(part, NotDot)
    ensures DotParts(part + "." + more) == [part] + DotParts(more)
    ensures DotParts(part) == [part]
  {
    var s := part + "." + more;
    assert s[..|part|] == part && s[|part| + 1..] == more && s[|part|] == '.';
    SpanIsUnique(s, NotDot, |part|);
    assert part[..|part|] == part;
    SpanIsUnique(part, NotDot, |part|);
  }

  /** The parts still to come at index `i`, the part begun so far included. */
  function PartsFrom(current: string, host: string, i: nat): seq<string>
    requires i <= |host|
  {
    DotParts(current + host[i..])
  }

  lemma DotEndsPart(current: string, host: string, i: nat)
    requires i < |host| && host[i] == '.' && All(current, NotDot)
    ensures PartsFrom(current, host, i) == [current] + PartsFrom("", host, i + 1)
  {
    hide DotParts;
    assert host[i..] == "." + host[i + 1..];
    Associate(current, ".", host[i + 1..]);
    DotPartsCons(current, host[i + 1..]);
    assert "" + host[i + 1..] == host[i + 1..];
  }

  lemma ByteJoinsPart(current: string, host: string, i: nat)
    requires i < |host|
    ensures PartsFrom(current, host, i) == PartsFrom(current + [host[i]], host, i + 1)
  {
    assert host[i..] == [host[i]] + host[i + 1..];
    Associate(current, [host[i]], host[i + 1..]);
  }

  lemma PartsAtEnds(current: string, host: string)
    requires All(current, NotDot)
    ensures PartsFrom("", host, 0) == DotParts(host) && PartsFrom(current, host, |host|) == [current]
  {
    assert "" + host[0..] == host && current + host[|host|..] == current;
    DotPartsCons(current, "");
  }

  /** The splitting loop: the parts between dots if there are exactly four. */
  method SplitAtDots(host: string) returns (ok: bool, parts: seq<string>)
    ensures ok <==> |DotParts(host)| == 4
    ensures ok ==> parts == DotParts(host)
  {
    hide PartsFrom, DotParts;
    parts := ["", "", "", ""];
    var partIndex, current := 0, "";
    PartsAtEnds("", host);
    for i := 0 to |host|
      invariant 0 <= partIndex <= 4 == |parts| && All(current, NotDot)
      invariant DotParts(host) == parts[..partIndex] + PartsFrom(current, host, i)
    {
      var c := host[i];
      if c == '.' {
        DotEndsPart(current, host, i);
        if partIndex >= 4 {
          return false, parts;
        }
        ghost var before := parts[..partIndex];
        parts := parts[partIndex := current];
        partIndex := partIndex + 1;
        assert parts[..partIndex] == before + [current];
        assert before + ([current] + PartsFrom("", host, i + 1)) == before + [current] + PartsFrom("", host, i + 1);
        current := "";
      } else {
        ByteJoinsPart(current, host, i);
        current := current + [c];
      }
    }
    PartsAtEnds(current, host);
    if partIndex != 3 {
      return false, parts;
    }
    parts := parts[partIndex := current];
    return true, parts;
  }

  method SplitIpv4Octets(host: string) returns (result: seq<string>)
    ensures result == Octets(host)
  {
    hide DotParts, IsOctet;
    var ok, parts := SplitAtDots(host);
    if !ok {
      return NO_OCTETS;
    }
    for i := 0 to 4
      invariant forall j :: 0 <= j < i ==> IsOctet(parts[j])
    {
      var valid := CheckOctet(parts[i]);
      if !valid {
        return NO_OCTETS;
      }
    }
    return parts;
  }

  /** The body of the checking loop: length, digits, value. */
  method CheckOctet(part: string) returns (valid: bool)
    ensures valid <==> IsOctet(part)
  {
    if part == "" || |part| > 3 {
      return false;
    }
    for k := 0 to |part|
      invariant forall j :: 0 <= j < k ==> IsDigit(part[j])
    {
      if !IsDigit(part[k]) {
        return false;
      }
    }
    return NatValue(part) <= 255;
  }

  lemma OctetsHaveNoDots(part: string)
    requires IsOctet(part)
    ensures All(part, NotDot)
  {
  }

  lemma JoinNests(a: string, b: string, c: string, d: string)
    ensures a + "." + b + "." + c + "." + d == a + "." + (b + "." + (c + "." + d))
  {
    var left, right := a + "." + b + "." + c + "." + d, a + "." + (b + "." + (c + "." + d));
    assert |left| == |right| && forall k :: 0 <= k < |left| ==> left[k] == right[k];
  }

  lemma PartsOfFour(a: string, b: string, c: string, d: string)
    requires All(a, NotDot) && All(b, NotDot) && All(c, NotDot) && All(d, NotDot)
    ensures DotParts(a + "." + (b + "." + (c + "." + d))) == [a, b, c, d]
  {
    hide DotParts, All;
    DotPartsCons(a, b + "." + (c + "." + d));
    DotPartsCons(b, c + "." + d);
    DotPartsCons(c, d);
    DotPartsCons(d, "");
  }

  /** Main result: splitting the join of four octets gives them back. */
  lemma SplitOfJoin(parts: seq<string>)
    requires |parts| == 4 && forall i :: 0 <= i < 4 ==> IsOctet(parts[i])
    ensures Octets(Joined(parts)) == parts
  {
    OctetsHaveNoDots(parts[0]);
    OctetsHaveNoDots(parts[1]);
    OctetsHaveNoDots(parts[2]);
    OctetsHaveNoDots(parts[3]);
    hide DotParts, All, IsOctet, NatValue;
    JoinNests(parts[0], parts[1], parts[2], parts[3]);
    PartsOfFour(parts[0], parts[1], parts[2], parts[3]);
    assert parts == [parts[0], parts[1], parts[2], parts[3]];
  }

  lemma {:induction false} DotPartsRejoin(s: string)
    ensures var parts := DotParts(s);
            if |parts| == 1 then s == parts[0]
            else exists more :: s == parts[0] + "." + more && DotParts(more) == parts[1..]
  {
    var n := Span(s, NotDot);
    if n < |s| {
      var more := s[n + 1..];
      assert s == s[..n] + "." + more;
    }
  }

  /** Main result: joining the parts of a split that succeeds gives the host back, and it succeeds
      exactly on the dotted quads. */
  lemma JoinOfSplit(host: string)
    ensures Octets(host) != NO_OCTETS ==> Joined(Octets(host)) == host
    ensures Octets(host) != NO_OCTETS <==>
            exists parts: seq<string> :: |parts| == 4 && (forall i :: 0 <= i < 4 ==> IsOctet(parts[i])) &&
                                         host == Joined(parts)
  {
    hide DotParts, NatValue;
    if Octets(host) != NO_OCTETS {
      var parts := DotParts(host);
      DotPartsRejoin(host);
      var more1 :| host == parts[0] + "." + more1 && DotParts(more1) == parts[1..];
      DotPartsRejoin(more1);
      var more2 :| more1 == parts[1] + "." + more2 && DotParts(more2) == parts[2..];
      DotPartsRejoin(more2);
      var more3 :| more2 == parts[2] + "." + more3 && DotParts(more3) == parts[3..];
      DotPartsRejoin(more3);
      assert host == Joined(parts);
    }
    forall parts: seq<string> | |parts| == 4 && (forall i :: 0 <= i < 4 ==> IsOctet(parts[i])) && host == Joined(parts)
      ensures Octets(host) != NO_OCTETS
    {
      SplitOfJoin(parts);
      assert parts[0] != "";
    }
  }

  /** An octet is a number from 0 to 255, zeros allowed before it up to three digits. */
  lemma OctetsAreSmallNumbers(part: string)
    ensures IsOctet(part) <==>
            exists zeros: nat, n: nat :: part == Zeros(zeros) + NatText(n) && n <= 255 && |part| <= 3
  {
    if IsOctet(part) {
      DigitsArePaddedText(part);
    }
    forall zeros: nat, n: nat | part == Zeros(zeros) + NatText(n) && n <= 255 && |part| <= 3
      ensures IsOctet(part)
    {
      assert All(part, IsDigit);
      PaddedValue(zeros, n);
    }
  }

  lemma {:induction false} ZerosAreNothing(n: nat)
    ensures NatValue(Zeros(n)) == 0
  {
    if n > 0 {
      ZerosAreNothing(n - 1);
      assert Zeros(n)[..n - 1] == Zeros(n - 1);
    }
  }

  lemma {:induction false} ValueOfConcat(zeros: nat, digits: string)
    requires All(digits, IsDigit)
    ensures All(Zeros(zeros) + digits, IsDigit) && NatValue(Zeros(zeros) + digits) == NatValue(digits)
  {
    var all, n := Zeros(zeros) + digits, |digits| - 1;
    if digits == "" {
      ZerosAreNothing(zeros);
      assert all == Zeros(zeros);
    } else {
      ValueOfConcat(zeros, digits[..n]);
      assert all[..|all| - 1] == Zeros(zeros) + digits[..n] && all[|all| - 1] == digits[n];
    }
  }

  lemma PaddedValue(zeros: nat, n: nat)
    ensures All(Zeros(zeros) + NatText(n), IsDigit) && NatValue(Zeros(zeros) + NatText(n)) == n
  {
    ValueOfConcat(zeros, NatText(n));
    NatTextValue(n);
  }

  lemma SmallNumbersAreShort(n: nat)
    ensures |NatText(n)| <= 3 <==> n <= 999
  {
    assert |NatText(n / 1000)| >= 1;
    if n >= 10 {
      assert |NatText(n)| == |NatText(n / 10)| + 1;
      if n >= 100 {
        assert |NatText(n / 10)| == |NatText(n / 100)| + 1;
        assert n / 10 / 10 == n / 100;
        if n >= 1000 {
          assert n / 100 / 10 == n / 1000;
        }
      }
    }
  }

  lemma PrintedOctet(n: nat)
    ensures IsOctet(NatText(n)) <==> n <= 255
    ensures All(NatText(n), NotDot) && NatText(n) != ""
  {
    hide NatText;
    NatTextValue(n);
    SmallNumbersAreShort(n);
    assert forall c: char :: IsDigit(c) ==> NotDot(c);
  }

  lemma OctetsOfFour(a: string, b: string, c: string, d: string)
    requires All(a, NotDot) && All(b, NotDot) && All(c, NotDot) && All(d, NotDot)
    ensures Octets(Joined([a, b, c, d])) ==
            if IsOctet(a) && IsOctet(b) && IsOctet(c) && IsOctet(d) then [a, b, c, d] else NO_OCTETS
  {
    hide DotParts, IsOctet, All;
    JoinNests(a, b, c, d);
    PartsOfFour(a, b, c, d);
  }

  /** Main result: the join of four printed numbers is split into them exactly when each is at
      most 255. */
  lemma SplitsExactlyNumbersTo255(a: nat, b: nat, c: nat, d: nat)
    ensures var parts := [NatText(a), NatText(b), NatText(c), NatText(d)];
            Octets(Joined(parts)) == if a <= 255 && b <= 255 && c <= 255 && d <= 255 then parts else NO_OCTETS
  {
    hide Octets, Joined, NatText, IsOctet, All;
    PrintedOctet(a);
    PrintedOctet(b);
    PrintedOctet(c);
    PrintedOctet(d);
    OctetsOfFour(NatText(a), NatText(b), NatText(c), NatText(d));
  }
}
