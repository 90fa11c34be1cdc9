/**
 The printer's keys and scalars come back from the reader of
 scripts/check-kubernetes.mjs unchanged, and nothing in them is read as
 structure.
 */
module YamlTokens {
  import opened Text
  import opened YamlScalars
  import opened YamlDocument
  import opened YamlPrinter

  /** A scalar's token is bare text or a quoted string. */
  ghost predicate IsScalarToken(t: string) {
    IsBare(t) || IsDoubleQuoted(t) || IsSingleQuoted(t)
  }

  ghost predicate IsDoubleQuoted(t: string) {
    exists s :: t == Quoted(s)
  }

  ghost predicate IsSingleQuoted(t: string) {
    exists s :: FitsQuotes(s) && t == "'" + (s + "'")
  }

  /** A token that can stand between brackets. */
  ghost predicate IsPart(t: string) {
    IsScalarToken(t) && (forall c :: c in t ==> !IsFlowBracket(c)) && (IsBare(t) ==> ',' !in t)
  }

  ghost predicate AreParts(parts: seq<string>) {
    parts != [] && forall k :: 0 <= k < |parts| ==> IsPart(parts[k])
  }

  /** Tokens written as a list in brackets. */
  function Bracketed(parts: seq<string>): string {
    "[" + (JoinWith(parts, ", ") + "]")
  }

  ghost predicate IsFlowToken(t: string) {
    exists parts :: AreParts(parts) && t == Bracketed(parts)
  }

  /** What stands for a value on the line of a key or a dash. */
  ghost predicate IsToken(t: string) {
    IsScalarToken(t) || IsFlowToken(t)
  }

  lemma JoinedFirst(parts: seq<string>)
    requires |parts| > 1
    ensures JoinWith(parts, ", ") == parts[0] + (", " + JoinWith(parts[1..], ", "))
  {
  }

  lemma JoinedOne(parts: seq<string>)
    requires |parts| == 1
    ensures JoinWith(parts, ", ") == parts[0]
  {
  }

  // ------------------------------------------------------------- comments

  /** No quote and no comment sign: read as it stands. */
  predicate IsQuiet(t: string) {
    forall c :: c in t ==> !IsQuote(c) && c != '#'
  }

  predicate EndsInSpace(t: string, before: bool) {
    if t == "" then before else IsSpace(t[|t| - 1])
  }

  lemma {:induction false} QuietKept(t: string, x: string, atBreak: bool)
    requires IsQuiet(t)
    ensures Uncommented(t + x, None, atBreak) == t + Uncommented(x, None, EndsInSpace(t, atBreak))
  {
    hide IsSpace;
    if t == "" {
      assert "" + x == x;
    } else {
      assert t[0] in t;
      assert (t + x)[1..] == t[1..] + x;
      QuietKept(t[1..], x, IsSpace(t[0]));
    }
  }

  /** Inside a quoted token nothing is a comment, and the quote closes at its end. */
  lemma {:induction false} EscapedKept(s: string, x: string, atBreak: bool)
    ensures Uncommented(Escape(s) + "\"" + x, Some('"'), atBreak) == Escape(s) + "\"" + Uncommented(x, None, false)
  {
    hide Uncommented, EscapeChar, IsSpace;
    if s == "" {
      assert Escape(s) + "\"" + x == "\"" + x;
      CloseKept(x, atBreak);
    } else {
      var e := EscapeChar(s[0]);
      var rest := Escape(s[1..]) + "\"" + x;
      assert Escape(s) + "\"" + x == e + rest;
      EscapeKept(s[0], rest, atBreak);
      EscapedKept(s[1..], x, IsSpace(e[|e| - 1]));
    }
  }

  lemma CloseKept(x: string, atBreak: bool)
    ensures Uncommented("\"" + x, Some('"'), atBreak) == "\"" + Uncommented(x, None, false)
  {
    assert ("\"" + x)[1..] == x;
  }

  lemma EscapeKept(c: char, rest: string, atBreak: bool)
    ensures var e := EscapeChar(c);
      Uncommented(e + rest, Some('"'), atBreak) == e + Uncommented(rest, Some('"'), IsSpace(e[|e| - 1]))
  {
    hide IsSpace, Uncommented;
    var e := EscapeChar(c);
    if |e| == 1 {
      InQuoteKept(c, rest, atBreak);
    } else if |e| == 2 {
      AfterBackslashKept(e[1], rest, atBreak);
      assert ['\\', e[1]] == e;
    } else {
      NumberKept(e[2], e[3], rest, atBreak);
      assert e == ['\\', 'x', e[2], e[3]];
    }
  }

  lemma NumberKept(h: char, l: char, rest: string, atBreak: bool)
    requires IsHex(h) && IsHex(l)
    ensures Uncommented(['\\', 'x', h, l] + rest, Some('"'), atBreak)
         == ['\\', 'x', h, l] + Uncommented(rest, Some('"'), IsSpace(l))
  {
    hide IsSpace, Uncommented;
    var u := Uncommented(rest, Some('"'), IsSpace(l));
    AfterBackslashKept('x', [h] + ([l] + rest), atBreak);
    InQuoteKept(h, [l] + rest, IsSpace('x'));
    InQuoteKept(l, rest, IsSpace(h));
    assert ['\\', 'x', h, l] + rest == ['\\', 'x'] + ([h] + ([l] + rest));
    assert ['\\', 'x'] + ([h] + ([l] + u)) == ['\\', 'x', h, l] + u;
  }

  lemma InQuoteKept(c: char, rest: string, atBreak: bool)
    requires c != '"' && c != '\\'
    ensures Uncommented([c] + rest, Some('"'), atBreak) == [c] + Uncommented(rest, Some('"'), IsSpace(c))
  {
    assert ([c] + rest)[1..] == rest;
  }

  lemma AfterBackslashKept(c: char, rest: string, atBreak: bool)
    ensures Uncommented(['\\', c] + rest, Some('"'), atBreak) == ['\\', c] + Uncommented(rest, Some('"'), IsSpace(c))
  {
    assert (['\\', c] + rest)[..2] == ['\\', c] && (['\\', c] + rest)[2..] == rest;
  }

  lemma OpenKept(x: string, atBreak: bool)
    ensures Uncommented("\"" + x, None, atBreak) == "\"" + Uncommented(x, Some('"'), false)
  {
    assert ("\"" + x)[1..] == x;
  }

  /** Inside single quotes nothing is a comment. */
  lemma {:induction false} SingleKept(s: string, x: string, atBreak: bool)
    requires FitsQuotes(s)
    ensures Uncommented(s + ("'" + x), Some('\''), atBreak) == s + ("'" + Uncommented(x, None, false))
  {
    if s == "" {
      assert "" + ("'" + x) == "'" + x && ("'" + x)[1..] == x;
    } else {
      assert s[0] in s;
      assert (s + ("'" + x))[1..] == s[1..] + ("'" + x);
      SingleKept(s[1..], x, IsSpace(s[0]));
    }
  }

  lemma OpenSingleKept(x: string, atBreak: bool)
    ensures Uncommented("'" + x, None, atBreak) == "'" + Uncommented(x, Some('\''), false)
  {
    assert ("'" + x)[1..] == x;
  }

  lemma ScalarTokenKept(t: string, x: string, atBreak: bool)
    requires IsScalarToken(t)
    ensures Uncommented(t + x, None, atBreak) == t + Uncommented(x, None, false)
  {
    hide Uncommented, IsSpace, Escape, FitsQuotes;
    if IsBare(t) {
      QuietKept(t, x, atBreak);
    } else if IsSingleQuoted(t) {
      hide IsBare;
      var s :| FitsQuotes(s) && t == "'" + (s + "'");
      assert t + x == "'" + (s + ("'" + x));
      OpenSingleKept(s + ("'" + x), atBreak);
      SingleKept(s, x, false);
      var more := Uncommented(x, None, false);
      assert t + more == "'" + (s + ("'" + more));
    } else {
      hide IsBare;
      var s :| t == Quoted(s);
      var rest := Escape(s) + "\"" + x;
      assert t + x == "\"" + rest;
      OpenKept(rest, atBreak);
      EscapedKept(s, x, false);
    }
  }

  lemma {:induction false} PartsKept(parts: seq<string>, x: string, atBreak: bool)
    requires AreParts(parts)
    ensures var t := JoinWith(parts, ", "); Uncommented(t + x, None, atBreak) == t + Uncommented(x, None, false)
  {
    hide Uncommented, IsScalarToken, JoinWith;
    if |parts| == 1 {
      JoinedOne(parts);
      ScalarTokenKept(parts[0], x, atBreak);
    } else {
      JoinedFirst(parts);
      var rest := JoinWith(parts[1..], ", ");
      ScalarTokenKept(parts[0], ", " + (rest + x), atBreak);
      QuietKept(", ", rest + x, false);
      PartsKept(parts[1..], x, EndsInSpace(", ", false));
      assert parts[0] + (", " + rest) + x == parts[0] + (", " + (rest + x));
      var more := Uncommented(x, None, false);
      assert parts[0] + (", " + (rest + more)) == parts[0] + (", " + rest) + more;
    }
  }

  lemma BracketIsVisible()
    ensures !IsSpace('[') && !IsSpace(']') && IsQuiet("[") && IsQuiet("]")
  {
  }

  lemma TokenKept(t: string, x: string, atBreak: bool)
    requires IsToken(t)
    ensures Uncommented(t + x, None, atBreak) == t + Uncommented(x, None, false)
  {
    hide Uncommented, IsSpace, IsScalarToken, AreParts, IsQuiet;
    if IsScalarToken(t) {
      ScalarTokenKept(t, x, atBreak);
    } else {
      var parts :| AreParts(parts) && t == Bracketed(parts);
      hide JoinWith;
      var joined, more := JoinWith(parts, ", "), Uncommented(x, None, false);
      BracketIsVisible();
      QuietKept("[", joined + ("]" + x), atBreak);
      PartsKept(parts, "]" + x, false);
      QuietKept("]", x, false);
      assert t + x == "[" + (joined + ("]" + x)) && t + more == "[" + (joined + ("]" + more));
    }
  }

  lemma TokenUncommented(t: string)
    requires IsToken(t)
    ensures StripComment(t) == t
  {
    hide Uncommented, IsToken;
    TokenKept(t, "", true);
    assert t + "" == t;
    NothingUncommented(false);
  }

  lemma NothingUncommented(atBreak: bool)
    ensures Uncommented("", None, atBreak) == ""
  {
  }

  // ---------------------------------------------------------------- decoding

  /** Reading a double-quoted scalar undoes escaping, whatever blank text or
      comment follows it. */
  lemma {:induction false} EscapeDecodes(s: string, after: string)
    requires NothingAfter(after)
    ensures DoubleQuotedFrom(Escape(s) + "\"" + after) == Ok(s)
  {
    hide NothingAfter, EscapeChar, DoubleQuotedFrom;
    if s == "" {
      assert Escape(s) + "\"" + after == "\"" + after;
      QuoteCloses(after);
    } else {
      var rest := Escape(s[1..]) + "\"" + after;
      assert Escape(s) + "\"" + after == EscapeChar(s[0]) + rest;
      EscapeDecodes(s[1..], after);
      EscapeCharDecodes(s[0], rest);
      assert [s[0]] + s[1..] == s;
    }
  }

  lemma QuoteCloses(after: string)
    requires NothingAfter(after)
    ensures DoubleQuotedFrom("\"" + after) == Ok("")
  {
    hide NothingAfter;
    assert ("\"" + after)[1..] == after;
  }

  lemma EscapeCharDecodes(c: char, rest: string)
    ensures DoubleQuotedFrom(EscapeChar(c) + rest) == Prepend([c], DoubleQuotedFrom(rest))
  {
    hide DoubleQuotedFrom, Prepend;
    var e := EscapeChar(c);
    if |e| == 1 {
      RawDecodes(c, rest);
    } else if |e| == 2 {
      SimpleDecodes(e[1], rest);
      assert e == ['\\', e[1]];
    } else {
      HexDecodes(e[2], e[3], rest);
      assert e == ['\\', 'x', e[2], e[3]];
    }
  }

  lemma RawDecodes(c: char, rest: string)
    requires c != '"' && c != '\\' && c != '\n'
    ensures DoubleQuotedFrom([c] + rest) == Prepend([c], DoubleQuotedFrom(rest))
  {
    hide Prepend;
    assert ([c] + rest)[1..] == rest;
  }

  lemma SimpleDecodes(e: char, rest: string)
    requires e != '\n' && e != 'x' && e != 'u' && e != 'U' && SimpleEscape(e).Some?
    ensures DoubleQuotedFrom(['\\', e] + rest) == Prepend([SimpleEscape(e).value], DoubleQuotedFrom(rest))
  {
    hide Prepend, SimpleEscape;
    assert (['\\', e] + rest)[2..] == rest;
  }

  lemma HexDecodes(h: char, l: char, rest: string)
    requires IsHex(h) && IsHex(l)
    ensures var n := 16 * HexDigit(h) + HexDigit(l);
      CodePoint(n).Some? &&
      DoubleQuotedFrom(['\\', 'x', h, l] + rest) == Prepend([CodePoint(n).value], DoubleQuotedFrom(rest))
  {
    hide Prepend;
    var t := ['\\', 'x', h, l] + rest;
    assert t[2..4] == [h, l] && t[4..] == rest;
    assert [h, l][..1] == [h];
    assert HexValue([h]) == 16 * HexValue([h][..0]) + HexDigit(h);
    assert HexValue([h, l]) == 16 * HexDigit(h) + HexDigit(l);
  }

  lemma QuotedReads(s: string)
    ensures OneLine(Quoted(s)) == Ok(Str(s))
  {
    hide DoubleQuotedFrom, Escape;
    assert Quoted(s)[1..] == Escape(s) + "\"" + "";
    EscapeDecodes(s, "");
  }

  lemma SingleReads(s: string)
    requires FitsQuotes(s)
    ensures OneLine("'" + (s + "'")) == Ok(Str(s))
  {
    hide SingleQuotedFrom;
    var t := "'" + (s + "'");
    assert t[1..] == s + "'" + "";
    NothingDoubled(s);
    DoublingDecodes(s, "");
  }

  lemma {:induction false} NothingDoubled(s: string)
    requires FitsQuotes(s)
    ensures DoubleQuotes(s) == s && '\n' !in s
  {
    if s == "" {
    } else {
      assert s[0] in s && forall c :: c in s[1..] ==> c in s;
      NothingDoubled(s[1..]);
      assert [s[0]] + s[1..] == s;
    }
  }

  /** A string's token is read back as the string. */
  lemma TextReads(s: string, plain: bool, quoting: Quoting)
    requires plain ==> OneLine(s) == Ok(Str(s)) && IsBare(s) && s[0] != '|' && s[0] != '>'
    ensures var t := TextToken(s, plain, quoting);
      IsScalarToken(t) && OneLine(t) == Ok(Str(s)) && t[0] != '|' && t[0] != '>'
  {
    hide OneLine, Escape, IsBare;
    QuotedReads(s);
    if FitsQuotes(s) {
      SingleReads(s);
    }
  }

  /** Doubles every single quote. */
  function DoubleQuotes(s: string): string {
    if s == "" then "" else (if s[0] == '\'' then "''" else [s[0]]) + DoubleQuotes(s[1..])
  }

  lemma DoubledCloses(after: string)
    requires NothingAfter(after) && !StartsWith(after, "'")
    ensures SingleQuotedFrom("'" + after) == Ok("")
  {
    hide NothingAfter;
    assert ("'" + after)[1..] == after;
    assert after != "" ==> after[..1] == [after[0]];
  }

  /** One character of a quote-doubled text. */
  lemma DoubledCharReads(c: char, x: string)
    requires c != '\n'
    ensures SingleQuotedFrom(DoubleQuotes([c]) + x) == Prepend([c], SingleQuotedFrom(x))
  {
    assert [c][1..] == "";
    if c == '\'' {
      assert DoubleQuotes([c]) == "''" && ("''" + x)[2..] == x;
    } else {
      assert DoubleQuotes([c]) == [c] && ([c] + x)[1..] == x;
    }
  }

  lemma DoublesFirst(s: string, x: string)
    requires s != ""
    ensures DoubleQuotes(s) + x == DoubleQuotes([s[0]]) + (DoubleQuotes(s[1..]) + x)
  {
    assert [s[0]][1..] == "";
  }

  /** Reading a single-quoted scalar on one line undoes quote-doubling. */
  lemma {:induction false} DoublingDecodes(s: string, after: string)
    requires '\n' !in s && NothingAfter(after) && !StartsWith(after, "'")
    ensures SingleQuotedFrom(DoubleQuotes(s) + "'" + after) == Ok(s)
  {
    hide NothingAfter, SingleQuotedFrom;
    var x := "'" + after;
    assert DoubleQuotes(s) + "'" + after == DoubleQuotes(s) + x;
    if s == "" {
      assert "" + x == x;
      DoubledCloses(after);
    } else {
      hide DoubleQuotes;
      DoublesFirst(s, x);
      DoubledCharReads(s[0], DoubleQuotes(s[1..]) + x);
      DoublingDecodes(s[1..], after);
      assert DoubleQuotes(s[1..]) + "'" + after == DoubleQuotes(s[1..]) + x;
      assert [s[0]] + s[1..] == s;
    }
  }

  // ------------------------------------------------------- shape of a token

  lemma {:induction false} DoublingKeepsRun(s: string, x: string)
    requires x == "" || x[0] != '\n'
    ensures BreakRun(DoubleQuotes(s) + x) == BreakRun(s)
  {
    if s == "" {
      assert DoubleQuotes(s) + x == x;
    } else if s[0] == '\n' {
      assert DoubleQuotes(s) + x == "\n" + (DoubleQuotes(s[1..]) + x);
      assert (DoubleQuotes(s) + x)[1..] == DoubleQuotes(s[1..]) + x;
      DoublingKeepsRun(s[1..], x);
    } else {
      assert (DoubleQuotes(s) + x)[0] == s[0];
    }
  }

  /** What is read does not start with a break that the text does not start with. */
  lemma NoBreakFirst(text: string)
    requires text == "" || text[0] != '\n'
    ensures SingleQuotedFrom(text).Ok? ==> BreakRun(SingleQuotedFrom(text).value) == 0
  {
    hide NothingAfter;
  }

  /** A text that starts with breaks is read with one break less. */
  lemma BreaksFold(text: string)
    requires text != "" && text[0] == '\n'
    ensures SingleQuotedFrom(text).Ok? ==> BreakRun(SingleQuotedFrom(text).value) == BreakRun(text) - 1
  {
    var n := BreakRun(text);
    NoBreakFirst(text[n..]);
    if SingleQuotedFrom(text[n..]).Ok? {
      var rest := SingleQuotedFrom(text[n..]).value;
      BreakRunIs(n - 1, rest);
      assert n == 1 ==> (FoldedBreaks(n) + rest)[0] == ' ';
    }
  }

  lemma {:induction false} BreaksAreLost(s: string, after: string)
    requires '\n' in s
    ensures SingleQuotedFrom(DoubleQuotes(s) + ("'" + after)) != Ok(s)
  {
    hide NothingAfter, BreakRun;
    var x := "'" + after;
    var text := DoubleQuotes(s) + x;
    if s[0] == '\n' {
      DoublingKeepsRun(s, x);
      BreaksFold(text);
    } else {
      hide DoubleQuotes, SingleQuotedFrom;
      BreaksAreLost(s[1..], after);
      DoublesFirst(s, x);
      DoubledCharReads(s[0], DoubleQuotes(s[1..]) + x);
      assert s == [s[0]] + s[1..];
    }
  }

  /** Quote-doubling is undone exactly for a string on one line: a line break is
      folded. */
  lemma DoublingDecodesExactly(s: string, after: string)
    requires NothingAfter(after) && !StartsWith(after, "'")
    ensures SingleQuotedFrom(DoubleQuotes(s) + "'" + after) == Ok(s) <==> '\n' !in s
  {
    hide NothingAfter, SingleQuotedFrom;
    if '\n' in s {
      BreaksAreLost(s, after);
      assert DoubleQuotes(s) + "'" + after == DoubleQuotes(s) + ("'" + after);
    } else {
      DoublingDecodes(s, after);
    }
  }

  lemma {:induction false} EscapeHasNoTerminator(s: string)
    ensures forall c :: c in Escape(s) ==> !IsLineTerminator(c) && !IsQuote(c)
  {
    if s == "" {
    } else {
      EscapeHasNoTerminator(s[1..]);
      EscapeCharHasNoTerminator(s[0]);
    }
  }

  lemma EscapeCharHasNoTerminator(c: char)
    ensures forall x :: x in EscapeChar(c) ==> !IsLineTerminator(x) && !IsQuote(x)
  {
  }

  lemma ScalarTokenShape(t: string)
    requires IsScalarToken(t)
    ensures t != "" && !IsSpace(t[0]) && !IsSpace(t[|t| - 1]) && t[0] != ':' && !IsItem(t)
    ensures forall c :: c in t ==> !IsLineTerminator(c)
    ensures !IsBare(t) ==> IsQuote(t[0])
  {
    if IsBare(t) {
      BareHasNoTerminator(t);
    } else if IsSingleQuoted(t) {
      hide IsBare;
    } else {
      var s :| t == Quoted(s);
      EscapeHasNoTerminator(s);
    }
  }

  lemma {:induction false} PartsOnLine(parts: seq<string>)
    requires AreParts(parts)
    ensures forall c :: c in JoinWith(parts, ", ") ==> !IsLineTerminator(c) && !IsFlowBracket(c)
  {
    hide IsScalarToken, IsBare, JoinWith;
    ScalarTokenShape(parts[0]);
    if |parts| == 1 {
      JoinedOne(parts);
    } else {
      JoinedFirst(parts);
      PartsOnLine(parts[1..]);
      CommaOnLine();
    }
  }

  lemma CommaOnLine()
    ensures forall c :: c in ", " ==> !IsLineTerminator(c) && !IsFlowBracket(c)
  {
  }

  /** Both ends of a token are visible, it stays on its line and it is no item. */
  lemma TokenShape(t: string)
    requires IsToken(t)
    ensures t != "" && !IsSpace(t[0]) && !IsSpace(t[|t| - 1]) && t[0] != ':' && !IsItem(t)
    ensures forall c :: c in t ==> !IsLineTerminator(c)
    ensures !IsBare(t) ==> IsQuote(t[0]) || t[0] == '['
  {
    hide IsScalarToken, AreParts, IsBare, JoinWith;
    if IsScalarToken(t) {
      ScalarTokenShape(t);
    } else {
      var parts :| AreParts(parts) && t == Bracketed(parts);
      PartsOnLine(parts);
      BracketIsVisible();
    }
  }

  lemma BareHasNoTerminator(t: string)
    requires IsBare(t)
    ensures forall c :: c in t ==> !IsLineTerminator(c)
  {
  }

  lemma TrimToken(t: string)
    requires t != "" && !IsSpace(t[0]) && !IsSpace(t[|t| - 1])
    ensures TrimStart(t) == t && TrimEnd(t) == t && Trim(t) == t
  {
  }

  // ------------------------------------------------------- lists in brackets

  /** One character passed, by whether it stands in quotes. */
  lemma CharGoes(c: char, rest: string, current: string, quote: Option<char>)
    requires quote.None? ==> !IsQuote(c) && c != ','
    ensures FlowItems([c] + rest, current, quote)
         == FlowItems(rest, current + [c], if quote == Some(c) then None else quote)
  {
    assert ([c] + rest)[1..] == rest;
  }

  lemma {:induction false} TextGoes(t: string, rest: string, current: string, quote: Option<char>)
    requires forall c :: c in t ==> !IsQuote(c) && (quote.None? ==> c != ',')
    requires quote.Some? ==> IsQuote(quote.value)
    ensures FlowItems(t + rest, current, quote) == FlowItems(rest, current + t, quote)
    decreases |t|
  {
    hide FlowItems;
    if t == "" {
      assert t + rest == rest && current + t == current;
    } else {
      assert t[0] in t;
      assert t + rest == [t[0]] + (t[1..] + rest);
      CharGoes(t[0], t[1..] + rest, current, quote);
      TextGoes(t[1..], rest, current + [t[0]], quote);
      assert current + [t[0]] + t[1..] == current + t;
    }
  }

  lemma OpenQuoteGoes(q: char, x: string, current: string)
    requires IsQuote(q)
    ensures FlowItems([q] + x, current, None) == FlowItems(x, current + [q], Some(q))
  {
    assert ([q] + x)[1..] == x;
  }

  lemma QuotedGoes(q: char, e: string, rest: string, current: string)
    requires IsQuote(q) && forall c :: c in e ==> !IsQuote(c)
    ensures FlowItems([q] + (e + ([q] + rest)), current, None) == FlowItems(rest, current + ([q] + (e + [q])), None)
  {
    hide FlowItems;
    OpenQuoteGoes(q, e + ([q] + rest), current);
    TextGoes(e, [q] + rest, current + [q], Some(q));
    CharGoes(q, rest, current + [q] + e, Some(q));
    assert current + [q] + e + [q] == current + ([q] + (e + [q]));
  }

  lemma QuotedIs(t: string) returns (q: char, e: string)
    requires IsScalarToken(t) && !IsBare(t)
    ensures IsQuote(q) && t == [q] + (e + [q]) && FitsQuotes(e)
  {
    hide IsBare, Escape;
    if IsSingleQuoted(t) {
      e :| FitsQuotes(e) && t == "'" + (e + "'");
      q := '\'';
    } else {
      var s :| t == Quoted(s);
      EscapeHasNoTerminator(s);
      q, e := '"', Escape(s);
    }
  }

  /** A token is passed as a whole. */
  lemma PartGoes(t: string, rest: string, current: string)
    requires IsPart(t)
    ensures FlowItems(t + rest, current, None) == FlowItems(rest, current + t, None)
  {
    hide FlowItems, IsBare, IsScalarToken;
    if IsBare(t) {
      BareHasNoQuote(t);
      TextGoes(t, rest, current, None);
    } else {
      var q, e := QuotedIs(t);
      QuotedGoes(q, e, rest, current);
      assert t + rest == [q] + (e + ([q] + rest));
    }
  }

  lemma BareHasNoQuote(t: string)
    requires IsBare(t)
    ensures forall c :: c in t ==> !IsQuote(c)
  {
  }

  lemma CommaGoes(rest: string, current: string)
    ensures FlowItems(", " + rest, current, None) == [current] + FlowItems(rest, " ", None)
  {
    assert (", " + rest)[1..] == " " + rest;
    assert (" " + rest)[1..] == rest;
    assert "" + [' '] == " ";
  }

  /** The pieces between commas, the blank after each comma still before them. */
  function Led(parts: seq<string>, lead: string): (r: seq<string>)
    ensures |r| == |parts|
  {
    if parts == [] then [] else [lead + parts[0]] + Led(parts[1..], " ")
  }

  lemma LedOne(parts: seq<string>, lead: string)
    requires |parts| == 1
    ensures Led(parts, lead) == [lead + parts[0]]
  {
    assert parts[1..] == [];
  }

  lemma TrimLed(t: string, lead: string)
    requires IsScalarToken(t) && (lead == "" || lead == " ")
    ensures Trim(lead + t) == t && Trim(lead + t) != ""
  {
    hide IsScalarToken, Trim, IsSpace;
    ScalarTokenShape(t);
    TrimSpaces(|lead|, t);
    assert Spaces(|lead|) == lead;
  }

  lemma {:induction false} PartsCut(parts: seq<string>, lead: string)
    requires AreParts(parts) && (lead == "" || lead == " ")
    ensures FlowItems(JoinWith(parts, ", "), lead, None) == Led(parts, lead)
    decreases |parts|
  {
    hide FlowItems, IsScalarToken, JoinWith, IsBare;
    TrimLed(parts[0], lead);
    if |parts| == 1 {
      JoinedOne(parts);
      PartGoes(parts[0], "", lead);
      assert parts[0] + "" == parts[0];
      LastItem(lead + parts[0]);
      LedOne(parts, lead);
    } else {
      JoinedFirst(parts);
      var rest := JoinWith(parts[1..], ", ");
      PartGoes(parts[0], ", " + rest, lead);
      CommaGoes(rest, lead + parts[0]);
      PartsCut(parts[1..], " ");
    }
  }

  lemma LastItem(current: string)
    requires Trim(current) != ""
    ensures FlowItems("", current, None) == [current]
  {
  }

  predicate ReadAs(parts: seq<string>, items: seq<Yaml>) {
    |parts| == |items| && forall k :: 0 <= k < |parts| ==> OneLine(parts[k]) == Ok(items[k])
  }

  lemma {:induction false} LedRead(parts: seq<string>, lead: string, items: seq<Yaml>, bound: nat)
    requires (forall k :: 0 <= k < |parts| ==> IsScalarToken(parts[k])) && ReadAs(parts, items)
    requires (lead == "" || lead == " ") && forall item :: item in Led(parts, lead) ==> |item| <= bound
    ensures FlowScalars(Led(parts, lead), bound) == Ok(items)
    decreases |parts|
  {
    hide OneLine, IsScalarToken, Trim;
    if parts == [] {
    } else {
      TrimLed(parts[0], lead);
      assert Led(parts, lead)[1..] == Led(parts[1..], " ");
      LedRead(parts[1..], " ", items[1..], bound);
      assert [items[0]] + items[1..] == items;
    }
  }

  /** A list in brackets is read as what its parts are read as. */
  lemma BracketedReads(parts: seq<string>, items: seq<Yaml>)
    requires AreParts(parts) && ReadAs(parts, items)
    ensures OneLine(Bracketed(parts)) == Ok(Seq(items))
  {
    hide IsScalarToken, IsBare, FlowItems, FlowScalars, JoinWith, ReadAs, Led;
    var t, inner := Bracketed(parts), JoinWith(parts, ", ");
    assert t[1..|t| - 1] == inner;
    PartsOnLine(parts);
    PartsCut(parts, "");
    LedRead(parts, "", items, |inner|);
    InnerNotEmpty(parts);
  }

  lemma InnerNotEmpty(parts: seq<string>)
    requires AreParts(parts)
    ensures JoinWith(parts, ", ") != ""
  {
    hide IsScalarToken;
    ScalarTokenShape(parts[0]);
  }

  function ItemTexts(items: seq<Yaml>, style: Style): (r: seq<string>)
    ensures |r| == |items| && forall k :: 0 <= k < |r| ==> r[k] == ScalarText(items[k], style)
  {
    seq(|items|, k requires 0 <= k < |items| => ScalarText(items[k], style))
  }

  lemma ListText(items: seq<Yaml>, style: Style)
    ensures ScalarText(Seq(items), style) == Bracketed(ItemTexts(items, style))
  {
    assert seq(|items|, k requires 0 <= k < |items| => ScalarText(items[k], style)) == ItemTexts(items, style);
  }

  /** The scalars of the printer, lists in brackets among them, are tokens and read
      back as their values. */
  lemma ScalarReads(y: Yaml, style: Style)
    requires Printable(y) && !IsNested(y, style) && !IsBlock(y)
    ensures IsToken(ScalarText(y, style)) && OneLine(ScalarText(y, style)) == Ok(y)
    ensures ScalarText(y, style)[0] != '|' && ScalarText(y, style)[0] != '>'
  {
    if y.Seq? && y.items != [] {
      hide ScalarText, OneLine, IsFlowItem, Printable, AreParts;
      ListReads(y.items, style);
    } else {
      hide IsBare, OneLine, ScalarText, Printable;
      PlainReads(y, style);
    }
  }

  lemma PlainReads(y: Yaml, style: Style)
    requires Printable(y) && (IsCollection(y) ==> y == Seq([]) || y == Map([])) && !IsBlock(y)
    ensures IsScalarToken(ScalarText(y, style)) && OneLine(ScalarText(y, style)) == Ok(y)
    ensures ScalarText(y, style)[0] != '|' && ScalarText(y, style)[0] != '>'
  {
    hide IsBare, OneLine, NatText, IsDecimalText, Escape, IsBlockText, PlainScalar;
    match y
    case Int(n) => IntReads(n);
    case Decimal(literal) => DecimalReads(literal);
    case Str(s) =>
      if IsPlainText(s) {
        PlainTextReads(s);
      }
      TextReads(s, IsPlainText(s), style.quoting(s));
    case _ =>
      WordReads(y, style);
  }

  lemma ListReads(items: seq<Yaml>, style: Style)
    requires AreFlowItems(items, style) && Printable(Seq(items))
    ensures IsFlowToken(ScalarText(Seq(items), style)) && OneLine(ScalarText(Seq(items), style)) == Ok(Seq(items))
    ensures ScalarText(Seq(items), style)[0] == '['
  {
    hide ScalarText, OneLine, IsBare, IsBlockText;
    var parts := ItemTexts(items, style);
    ListText(items, style);
    forall k | 0 <= k < |parts| ensures IsPart(parts[k]) && OneLine(parts[k]) == Ok(items[k]) {
      assert items[k] in items;
      PlainReads(items[k], style);
    }
    BracketedReads(parts, items);
  }

  lemma PlainTextReads(s: string)
    requires IsPlainText(s)
    ensures OneLine(s) == Ok(Str(s))
  {
    hide PlainScalar, FlowItems, FlowScalars, DoubleQuotedFrom, SingleQuotedFrom;
    assert s[0] in s;
    assert s[0] == '[' || s[0] == '{' ==> PlainScalar(s) == Err(UnsupportedValue) by {
      BracketIsUnsupported(s);
    }
  }

  lemma BracketIsUnsupported(s: string)
    requires s != ""
    ensures s[0] == '[' || s[0] == '{' ==> PlainScalar(s) == Err(UnsupportedValue)
  {
  }

  /** A bare word that a value under a key or a dash is written as. */
  predicate IsWordFor(t: string, y: Yaml) {
    IsBare(t) && OneLine(t) == Ok(y) && t[0] != '|' && t[0] != '>'
  }

  lemma NullReads()
    ensures IsWordFor("null", Null)
  {
    hide IsIntegerText, IsDecimalText, FlowItems, FlowScalars, DoubleQuotedFrom, SingleQuotedFrom;
  }

  lemma TrueReads()
    ensures IsWordFor("true", Bool(true))
  {
    hide IsIntegerText, IsDecimalText, FlowItems, FlowScalars, DoubleQuotedFrom, SingleQuotedFrom;
  }

  lemma FalseReads()
    ensures IsWordFor("false", Bool(false))
  {
    hide IsIntegerText, IsDecimalText, FlowItems, FlowScalars, DoubleQuotedFrom, SingleQuotedFrom;
  }

  lemma EmptyReads()
    ensures IsWordFor("[]", Seq([])) && IsWordFor("{}", Map([]))
  {
    hide IsIntegerText, IsDecimalText, FlowItems, FlowScalars, DoubleQuotedFrom, SingleQuotedFrom;
  }

  lemma WordReads(y: Yaml, style: Style)
    requires y in {Null, Bool(true), Bool(false), Seq([]), Map([])}
    ensures IsBare(ScalarText(y, style)) && OneLine(ScalarText(y, style)) == Ok(y)
    ensures ScalarText(y, style)[0] != '|' && ScalarText(y, style)[0] != '>'
  {
    hide IsBare, OneLine;
    NullReads();
    TrueReads();
    FalseReads();
    EmptyReads();
    EmptyListText(style);
  }

  lemma EmptyListText(style: Style)
    ensures ScalarText(Seq([]), style) == "[]"
  {
    ListText([], style);
    assert "[" + ("" + "]") == "[]";
  }

  predicate IsNumberChar(c: char) { IsDigit(c) || c == '.' || c == '-' || c == '+' || c == 'e' || c == 'E' }

  predicate NumberChars(t: string) {
    forall k :: 0 <= k < |t| ==> IsNumberChar(t[k])
  }

  lemma NumberIsBare(t: string)
    requires t != "" && t != "-" && NumberChars(t)
    ensures IsBare(t)
  {
    assert forall c :: c in t ==> IsNumberChar(c);
    assert |t| > 1 ==> IsNumberChar(t[1]);
  }

  /** A number is no word and starts with no indicator. */
  lemma NumberScalar(t: string)
    requires t != "" && t != "-" && NumberChars(t)
    ensures OneLine(t) == if IsIntegerText(t) then Ok(Int(IntegerValue(t)))
                          else if IsDecimalText(t) then Ok(Decimal(t))
                          else Ok(Str(t))
  {
    hide IsIntegerText, IntegerValue, IsDecimalText, DoubleQuotedFrom, SingleQuotedFrom, FlowItems, FlowScalars;
    assert IsNumberChar(t[0]);
    assert |t| > 1 ==> IsNumberChar(t[1]);
  }

  lemma IntReads(n: int)
    ensures IsBare(IntText(n)) && OneLine(IntText(n)) == Ok(Int(n))
    ensures IntText(n)[0] != '|' && IntText(n)[0] != '>'
  {
    hide IsBare, OneLine, DigitRun, DigitsValue, NatText;
    var t := IntText(n);
    var m := if n < 0 then -n else n;
    NatDigits(m);
    assert n < 0 ==> t[1..] == NatText(m);
    assert forall k :: 0 <= k < |NatText(m)| ==> IsDigit(NatText(m)[k]);
    assert Unsigned(t) == NatText(m);
    NumberIsBare(t);
    NumberScalar(t);
  }

  lemma DecimalReads(literal: string)
    requires IsDecimalText(literal)
    ensures IsBare(literal) && OneLine(literal) == Ok(Decimal(literal))
    ensures literal[0] != '|' && literal[0] != '>'
  {
    hide IsBare, OneLine, IsDecimalText;
    DecimalChars(literal);
    assert IsNumberChar(literal[0]);
    NumberIsBare(literal);
    NumberScalar(literal);
    DecimalIsNoInteger(literal);
  }

  lemma SignedChars(t: string)
    requires NumberChars(Unsigned(t))
    ensures NumberChars(t)
  {
    var u := Unsigned(t);
    assert forall k :: 0 <= k < |t| ==> u != t && k > 0 ==> t[k] == u[k - 1];
  }

  /** A run of digits before number characters. */
  lemma DigitsThen(t: string)
    requires NumberChars(t[DigitRun(t)..])
    ensures NumberChars(t)
  {
    var n := DigitRun(t);
    assert forall k :: n <= k < |t| ==> t[k] == t[n..][k - n];
  }

  lemma CharThen(t: string)
    requires t != "" && IsNumberChar(t[0]) && NumberChars(t[1..])
    ensures NumberChars(t)
  {
    assert forall k :: 1 <= k < |t| ==> t[k] == t[1..][k - 1];
  }

  lemma ExponentChars(s: string)
    requires IsExponent(s)
    ensures NumberChars(s)
  {
    if s != "" {
      SignedChars(s[1..]);
      CharThen(s);
    }
  }

  /** Only digits, a point, signs and an exponent letter make a decimal. */
  lemma DecimalChars(t: string)
    requires IsDecimalText(t)
    ensures t != "" && t != "-" && NumberChars(t)
  {
    hide DigitRun, NumberChars, IsExponent;
    var u := Unsigned(t);
    var s := u[DigitRun(u)..];
    ExponentChars(s[1..][DigitRun(s[1..])..]);
    DigitsThen(s[1..]);
    CharThen(s);
    DigitsThen(u);
    SignedChars(t);
  }

  lemma DecimalIsNoInteger(t: string)
    requires IsDecimalText(t)
    ensures !IsIntegerText(t)
  {
  }
}
