/**
 What the reader of scripts/check-kubernetes.mjs makes of one printed row: the
 key and value text of a `key:` line, the value text of an item, and the map
 that begins on the line of a dash.
 */
module YamlRows {
  import opened Text
  import opened YamlScalars
  import opened YamlDocument
  import opened YamlPrinter
  import opened YamlTokens

  // ------------------------------------------------------ nothing is a comment

  lemma HeadTextIsToken(y: Yaml, style: Style)
    requires Printable(y)
    ensures !IsNested(y, style) ==> IsToken(ScalarText(y, style))
  {
    hide IsBare, IsBlockText;
    if IsBlock(y) {
      HeaderIsBare(y.s);
    } else if !IsNested(y, style) {
      ScalarReads(y, style);
    }
  }

  lemma HeaderIsBare(s: string)
    ensures IsBare(BlockHeader(s))
  {
  }

  lemma GapIsSpace(y: Yaml, style: Style)
    ensures var gap := Gap(y, style); IsQuiet(gap) && EndsInSpace(gap, true) && EndsInSpace(gap, false) && IsSpace(gap[0])
  {
    assert Gap(y, style)[0] in Gap(y, style) && Gap(y, style)[|Gap(y, style)| - 1] in Gap(y, style);
  }

  lemma TailKept(y: Yaml, atBreak: bool, style: Style)
    requires Printable(y)
    ensures Uncommented(Tail(y, style), None, atBreak) == Tail(y, style)
  {
    hide Uncommented, ScalarText, Printable;
    NothingUncommented(atBreak);
    if !IsNested(y, style) {
      HeadTextIsToken(y, style);
      GapIsSpace(y, style);
      QuietKept(Gap(y, style), ScalarText(y, style), atBreak);
      TokenKept(ScalarText(y, style), "", true);
      NothingUncommented(false);
      assert ScalarText(y, style) + "" == ScalarText(y, style);
    }
  }

  lemma KeyTokenIsToken(key: string, style: Style)
    ensures IsToken(KeyToken(key, style))
  {
    hide KeyToken, IsScalarToken;
    KeyTokenIsScalar(key, style);
  }

  lemma KeyTokenIsScalar(key: string, style: Style)
    ensures IsScalarToken(KeyToken(key, style)) && KeyToken(key, style) != ""
  {
    if IsPlainKey(key) {
      PlainKeyIsBare(key);
    }
  }

  lemma PlainKeyIsBare(key: string)
    requires IsPlainKey(key)
    ensures IsBare(key) && ':' !in key && (IsLetter(key[0]) || key[0] == '_')
  {
    assert forall c :: IsKeyChar(c) ==> !IsSpace(c) && !IsQuote(c) && c != '#' && c != ':';
    assert key[|key| - 1] in key;
  }

  lemma KeyLineKept(key: string, y: Yaml, atBreak: bool, style: Style)
    requires Printable(y)
    ensures Uncommented(KeyLine(key, y, style), None, atBreak) == KeyLine(key, y, style)
  {
    hide Uncommented, Tail, KeyToken, Printable;
    KeyTokenIsToken(key, style);
    TokenKept(KeyToken(key, style), ":" + Tail(y, style), atBreak);
    QuietKept(":", Tail(y, style), false);
    TailKept(y, false, style);
  }

  lemma DashLineKept(y: Yaml, atBreak: bool, style: Style)
    requires Printable(y)
    ensures Uncommented(DashLine(y, style), None, atBreak) == DashLine(y, style)
  {
    hide Uncommented, Tail, Printable;
    QuietKept("-", Tail(y, style), atBreak);
    TailKept(y, false, style);
  }

  lemma IndentKept(indent: nat, body: string)
    requires forall b :: Uncommented(body, None, b) == body
    ensures StripComment(Spaces(indent) + body) == Spaces(indent) + body
  {
    hide Uncommented;
    QuietKept(Spaces(indent), body, true);
  }

  // ------------------------------------------------------------ row and text

  predicate Visible(body: string) {
    body != "" && !IsSpace(body[0]) && !IsSpace(body[|body| - 1])
  }

  lemma TailEnds(start: string, y: Yaml, style: Style)
    requires start != "" && !IsSpace(start[0]) && !IsSpace(start[|start| - 1]) && Printable(y)
    ensures Visible(start + Tail(y, style))
  {
    hide ScalarText, Printable, IsSpace, IsToken;
    if !IsNested(y, style) {
      HeadTextIsToken(y, style);
      TokenShape(ScalarText(y, style));
      var t := start + (Gap(y, style) + ScalarText(y, style));
      assert t[|t| - 1] == ScalarText(y, style)[|ScalarText(y, style)| - 1];
    }
  }

  lemma KeyLineVisible(key: string, y: Yaml, style: Style)
    requires Printable(y)
    ensures Visible(KeyLine(key, y, style)) && !IsItem(KeyLine(key, y, style))
  {
    hide Tail, IsSpace, Printable;
    KeyTokenIsToken(key, style);
    TokenShape(KeyToken(key, style));
    KeyTokenStart(key, style);
    assert !IsSpace(':') by {
      ColonIsVisible();
    }
    TailEnds(KeyToken(key, style) + ":", y, style);
    assert KeyLine(key, y, style) == KeyToken(key, style) + ":" + Tail(y, style);
  }

  lemma ColonIsVisible()
    ensures !IsSpace(':') && !IsSpace('-')
  {
  }

  lemma KeyTokenStart(key: string, style: Style)
    ensures KeyToken(key, style) != "" && KeyToken(key, style)[0] != '-'
  {
  }

  lemma DashLineVisible(y: Yaml, style: Style)
    requires Printable(y)
    ensures Visible(DashLine(y, style)) && IsItem(DashLine(y, style))
  {
    hide IsSpace, Printable, ScalarText;
    ColonIsVisible();
    TailEnds("-", y, style);
    if !IsNested(y, style) {
      assert Gap(y, style)[0] in Gap(y, style) && DashLine(y, style)[1] == Gap(y, style)[0];
    }
  }

  /** A row of visible text without comment. */
  lemma RowInfo(indent: nat, body: string)
    requires Visible(body) && StripComment(Spaces(indent) + body) == Spaces(indent) + body
    ensures var row := Spaces(indent) + body;
      HasContent(row) && LineOf(row) == Line(row, indent, body)
  {
    hide StripComment;
    SpacesLead(indent, body);
    TrimSpaces(indent, body);
  }

  lemma KeyRow(indent: nat, key: string, y: Yaml, style: Style)
    requires Printable(y)
    ensures var row := Spaces(indent) + KeyLine(key, y, style);
      HasContent(row) && LineOf(row) == Line(row, indent, KeyLine(key, y, style)) && !IsItem(KeyLine(key, y, style))
  {
    hide HasContent, LineOf, KeyLine, StripComment, Printable, Uncommented;
    forall b ensures Uncommented(KeyLine(key, y, style), None, b) == KeyLine(key, y, style) {
      KeyLineKept(key, y, b, style);
    }
    IndentKept(indent, KeyLine(key, y, style));
    KeyLineVisible(key, y, style);
    RowInfo(indent, KeyLine(key, y, style));
  }

  lemma DashRow(indent: nat, y: Yaml, style: Style)
    requires Printable(y)
    ensures var row := Spaces(indent) + DashLine(y, style);
      HasContent(row) && LineOf(row) == Line(row, indent, DashLine(y, style)) && IsItem(DashLine(y, style))
  {
    hide HasContent, LineOf, DashLine, StripComment, Printable, Uncommented;
    forall b ensures Uncommented(DashLine(y, style), None, b) == DashLine(y, style) {
      DashLineKept(y, b, style);
    }
    IndentKept(indent, DashLine(y, style));
    DashLineVisible(y, style);
    RowInfo(indent, DashLine(y, style));
  }

  // ------------------------------------------------------------ the key pattern

  lemma {:induction false} OneLinePrefixAll(t: string)
    requires forall c :: c in t ==> !IsLineTerminator(c)
    ensures OneLinePrefix(t) == t
  {
    if t == "" {
    } else {
      assert t[0] in t;
      OneLinePrefixAll(t[1..]);
    }
  }

  function ValueText(y: Yaml, style: Style): Option<string> {
    if IsNested(y, style) then None else Some(ScalarText(y, style))
  }

  lemma KeyEnds(token: string, y: Yaml, style: Style)
    requires Printable(y)
    ensures KeyEndingAt(token + (":" + Tail(y, style)), |token|) == Some(KeyMatch(token, ValueText(y, style)))
  {
    hide Printable, ScalarText, IsSpace, OneLinePrefix, TrimStart;
    var t := token + (":" + Tail(y, style));
    assert t[|token|..] == ":" + Tail(y, style) && t[..|token|] == token;
    ColonStays(Tail(y, style));
    assert (":" + Tail(y, style))[1..] == Tail(y, style);
    if !IsNested(y, style) {
      HeadTextIsToken(y, style);
      TokenShape(ScalarText(y, style));
      GapIsSpace(y, style);
      TrimStartSpaces(style.gap(y) + 1, ScalarText(y, style));
      OneLinePrefixAll(ScalarText(y, style));
    }
  }

  lemma ColonStays(x: string)
    ensures TrimStart(":" + x) == ":" + x && IsSpace(' ')
  {
  }

  lemma {:induction false} EscapedSpan(s: string, x: string)
    ensures DoubleQuotedSpan(Escape(s) + "\"" + x) == Some(|Escape(s)| + 1)
  {
    hide DoubleQuotedSpan, EscapeChar;
    if s == "" {
      assert Escape(s) + "\"" + x == "\"" + x;
      CloseSpan(x);
    } else {
      var rest := Escape(s[1..]) + "\"" + x;
      assert Escape(s) + "\"" + x == EscapeChar(s[0]) + rest;
      EscapedSpan(s[1..], x);
      EscapeCharSpan(s[0], rest);
    }
  }

  lemma CloseSpan(x: string)
    ensures DoubleQuotedSpan("\"" + x) == Some(1)
  {
  }

  lemma RawSpan(c: char, rest: string)
    requires c != '"' && c != '\\' && DoubleQuotedSpan(rest).Some?
    ensures DoubleQuotedSpan([c] + rest) == Some(1 + DoubleQuotedSpan(rest).value)
  {
    assert ([c] + rest)[1..] == rest;
  }

  lemma BackslashSpan(c: char, rest: string)
    requires !IsLineTerminator(c) && DoubleQuotedSpan(rest).Some?
    ensures DoubleQuotedSpan(['\\', c] + rest) == Some(2 + DoubleQuotedSpan(rest).value)
  {
    assert (['\\', c] + rest)[2..] == rest;
  }

  /** A character as it is, after a backslash, or as two hexadecimal digits. */
  lemma EscapeCharShape(c: char)
    ensures var e := EscapeChar(c);
      || (e == [c] && c != '"' && c != '\\')
      || (|e| == 2 && e[0] == '\\' && !IsLineTerminator(e[1]))
      || (|e| == 4 && e == ['\\', 'x', e[2], e[3]] && IsHex(e[2]) && IsHex(e[3]) && !IsLineTerminator('x'))
  {
  }

  lemma HexIsRaw(c: char)
    requires IsHex(c)
    ensures c != '"' && c != '\\'
  {
  }

  lemma EscapeCharSpan(c: char, rest: string)
    requires DoubleQuotedSpan(rest).Some?
    ensures DoubleQuotedSpan(EscapeChar(c) + rest) == Some(|EscapeChar(c)| + DoubleQuotedSpan(rest).value)
  {
    EscapeCharShape(c);
    hide DoubleQuotedSpan, EscapeChar, IsLineTerminator;
    var e := EscapeChar(c);
    if |e| == 1 {
      RawSpan(c, rest);
    } else if |e| == 2 {
      BackslashSpan(e[1], rest);
      assert e == ['\\', e[1]];
    } else {
      HexIsRaw(e[2]);
      HexIsRaw(e[3]);
      RawSpan(e[3], rest);
      RawSpan(e[2], [e[3]] + rest);
      BackslashSpan('x', [e[2]] + ([e[3]] + rest));
      assert e + rest == ['\\', 'x'] + ([e[2]] + ([e[3]] + rest));
    }
  }

  lemma KeyTokenIs(key: string, style: Style)
    ensures var t := KeyToken(key, style);
      (IsPlainKey(key) && t == key) || t == Quoted(key) || (FitsQuotes(key) && t == "'" + (key + "'"))
  {
  }

  /** A printed `key:` line matches the key pattern with its own key and value. */
  lemma KeyMatched(key: string, y: Yaml, style: Style)
    requires Printable(y)
    ensures MatchKey(KeyLine(key, y, style)) == Some(KeyMatch(KeyToken(key, style), ValueText(y, style)))
  {
    hide Printable, ScalarText, KeyEndingAt, MatchKey, Tail, KeyToken, Quoted;
    var token, x := KeyToken(key, style), ":" + Tail(y, style);
    KeyEnds(token, y, style);
    KeyTokenIs(key, style);
    if token == Quoted(key) {
      QuotedKeyMatched(key, x);
    } else if token == "'" + (key + "'") && FitsQuotes(key) {
      SingleKeyMatched(key, x);
    } else {
      PlainKeyMatched(key, x);
    }
  }

  lemma QuotedKeyMatched(key: string, x: string)
    ensures MatchKey(Quoted(key) + x) == KeyEndingAt(Quoted(key) + x, |Quoted(key)|)
  {
    hide KeyEndingAt, DoubleQuotedSpan, SingleQuotedSpan, Escape;
    assert (Quoted(key) + x)[1..] == Escape(key) + "\"" + x;
    EscapedSpan(key, x);
  }

  lemma SingleKeyMatched(key: string, x: string)
    requires FitsQuotes(key) && x != "" && x[0] == ':'
    ensures var t := "'" + (key + "'"); MatchKey(t + x) == KeyEndingAt(t + x, |t|)
  {
    hide KeyEndingAt, DoubleQuotedSpan, SingleQuotedSpan;
    var t := "'" + (key + "'");
    assert (t + x)[1..] == key + ("'" + x);
    SingleSpan(key, x);
  }

  lemma {:induction false} SingleSpan(s: string, x: string)
    requires FitsQuotes(s) && x != "" && x[0] == ':'
    ensures SingleQuotedSpan(s + ("'" + x)) == Some(|s| + 1)
  {
    if s == "" {
      assert "" + ("'" + x) == "'" + x;
    } else {
      assert s[0] in s;
      assert (s + ("'" + x))[1..] == s[1..] + ("'" + x);
      SingleSpan(s[1..], x);
    }
  }

  lemma PlainKeyMatched(key: string, x: string)
    requires IsPlainKey(key) && x != "" && x[0] == ':'
    ensures MatchKey(key + x) == KeyEndingAt(key + x, |key|)
  {
    hide KeyEndingAt, IsBare, IndexOf, MatchKey, TrimEnd, IsKeyChar;
    PlainKeyIsBare(key);
    var t := key + x;
    assert t[..|key|] == key && t[|key|] == ':';
    PlainKeyStarts(key, t);
    forall k | 1 <= k < |key| ensures t[k] != ':' {
      assert t[k] == key[k] && key[k] in key;
    }
    assert t[|key|..|key| + 1] == ":";
    FirstAt(t, ":", 1, |key|);
    BareTrims(key);
  }

  lemma PlainKeyStarts(key: string, t: string)
    requires IsPlainKey(key) && t != "" && t[0] == key[0]
    ensures MatchKey(t) == PlainKey(t, 1)
  {
    hide PlainKey, IsKeyStart;
    LetterStartsKey(key[0]);
  }

  lemma LetterStartsKey(c: char)
    requires IsLetter(c) || c == '_'
    ensures IsKeyStart(c) && !IsQuote(c)
  {
  }

  lemma BareTrims(t: string)
    requires IsBare(t)
    ensures TrimEnd(t) == t
  {
  }

  // ------------------------------------------------------- the value's text

  /** A pattern whose first character occurs at `at` only is found there. */
  lemma FirstAt(s: string, pat: string, from: nat, at: nat)
    requires pat != "" && from <= at && OccursAt(s, pat, at)
    requires forall k :: from <= k < at ==> s[k] != pat[0]
    ensures IndexOf(s, pat, from) == at
  {
    hide IndexOf;
    var r := IndexOf(s, pat, from);
    assert r != -1;
    forall k: nat | OccursAt(s, pat, k) ensures s[k] == pat[0] {
      assert s[k..k + |pat|][0] == s[k];
    }
  }

  /** From its mark on, the first occurrence of a value is the value itself. */
  lemma ValueFound(before: string, from: nat, t: string)
    requires IsToken(t) && from <= |before|
    requires forall k :: from <= k < |before| ==> before[k] == ':' || before[k] == ' '
    ensures Trim(SliceFrom(before + t, IndexOf(before + t, t, from))) == t
  {
    hide IsToken, IndexOf, IsSpace, Trim;
    TokenShape(t);
    ColonStays(t);
    var raw := before + t;
    assert raw[|before|..] == t;
    assert raw[|before|..|before| + |t|] == t;
    FirstAt(raw, t, from, |before|);
    TrimToken(t);
  }

  lemma UncommentingToken(t: string)
    requires IsToken(t)
    ensures Uncommenting(t) == t
  {
    hide IsToken, StripComment;
    TokenUncommented(t);
    TokenShape(t);
    TrimToken(t);
  }

  lemma KeyReads(key: string, style: Style)
    ensures OneLine(KeyToken(key, style)).Ok? && !IsCollection(OneLine(KeyToken(key, style)).value)
    ensures KeyText(OneLine(KeyToken(key, style)).value) == key
  {
    hide OneLine, Quoted, KeyToken;
    KeyTokenIs(key, style);
    QuotedReads(key);
    if FitsQuotes(key) {
      SingleReads(key);
    }
    if IsPlainKey(key) {
      PlainKeyReads(key);
    }
  }

  lemma PlainKeyReads(key: string)
    requires IsPlainKey(key)
    ensures OneLine(key).Ok? && !IsCollection(OneLine(key).value)
    ensures KeyText(OneLine(key).value) == key
  {
    hide FlowItems, FlowScalars, DoubleQuotedFrom, SingleQuotedFrom;
    assert key[0] in key;
  }

  lemma EntryReads(indent: nat, key: string, y: Yaml, out: seq<Entry>, rest: Rows, parsed: Parsed<Yaml>, style: Style)
    requires Printable(y) && !HasKey(out, key)
    requires Value(rest, HeadText(y, style), indent, true) == Ok(parsed)
    ensures var row := Spaces(indent) + KeyLine(key, y, style);
      HasContent(row) &&
      MapEntry([row] + rest, indent, out) == Ok(Parsed(Entry(key, parsed.value), parsed.rest))
  {
    hide Value, HasContent, LineOf, MatchKey, KeyLine, OneLine, HasKey, KeyText, Printable, IndexOf, SliceFrom, Trim,
      Uncommenting, ScalarText, KeyToken;
    var row := Spaces(indent) + KeyLine(key, y, style);
    KeyRow(indent, key, y, style);
    KeyMatched(key, y, style);
    KeyReads(key, style);
    assert ([row] + rest)[1..] == rest;
    EntryText(indent, key, y, style);
  }

  predicate IsBlanks(gap: string) { forall c :: c in gap ==> c == ' ' }

  lemma Regroup(a: string, b: string, gap: string, v: string)
    requires IsBlanks(gap)
    ensures var before := a + (b + (":" + gap));
      a + (b + (":" + (gap + v))) == before + v
      && forall k :: |a| + |b| <= k < |before| ==> before[k] == ':' || before[k] == ' '
  {
    var before := a + (b + (":" + gap));
    forall k | |a| + |b| <= k < |before| ensures before[k] == ':' || before[k] == ' ' {
      if k > |a| + |b| {
        assert before[k] == gap[k - |a| - |b| - 1] && gap[k - |a| - |b| - 1] in gap;
      }
    }
  }

  /** A token after a key is found where it is written. */
  lemma FoundAfterKey(raw: string, lead: string, key: string, gap: string, t: string)
    requires IsToken(t) && IsBlanks(gap) && raw == lead + (key + (":" + (gap + t)))
    ensures Trim(SliceFrom(raw, IndexOf(raw, t, |lead| + |key|))) == t
  {
    hide *;
    Regroup(lead, key, gap, t);
    ValueFound(lead + (key + (":" + gap)), |lead| + |key|, t);
  }

  lemma EntryText(indent: nat, key: string, y: Yaml, style: Style)
    requires Printable(y)
    ensures var row := Spaces(indent) + KeyLine(key, y, style);
      var found := KeyMatch(KeyToken(key, style), ValueText(y, style));
      Uncommenting(WrittenValue(Line(row, indent, KeyLine(key, y, style)), found)) == HeadText(y, style)
  {
    hide IndexOf, SliceFrom, Trim, ScalarText, KeyToken, Printable, Uncommenting, IsToken, Spaces;
    if IsNested(y, style) {
      NothingWritten();
    } else {
      HeadTextIsToken(y, style);
      FoundAfterKey(Spaces(indent) + KeyLine(key, y, style), Spaces(indent), KeyToken(key, style), Gap(y, style),
        ScalarText(y, style));
      UncommentingToken(ScalarText(y, style));
    }
  }

  lemma NothingWritten()
    ensures Uncommenting("") == ""
  {
  }

  // ---------------------------------------------------------------- the item

  lemma NoColonFollows(t: string, end: nat)
    requires IsBare(t) && end <= |t|
    ensures !ColonFollows(t[end..])
  {
    hide TrimStart;
    var r := TrimStart(t[end..]);
    TrimStartIsSuffix(t[end..]);
    if r != "" && r[0] == ':' {
      var k := |t| - |r|;
      assert t[k] == ':' && |r| > 1 && r[1] == t[k + 1];
    }
  }

  lemma {:induction false} PassesQuoteFree(e: string, rest: string)
    requires forall c :: c in e ==> !IsLineTerminator(c) && !IsQuote(c)
    ensures QuoteThenColon(e + rest) == QuoteThenColon(rest)
  {
    hide ColonFollows;
    if e == "" {
      assert e + rest == rest;
    } else {
      assert e[0] in e;
      assert (e + rest)[1..] == e[1..] + rest;
      PassesQuoteFree(e[1..], rest);
    }
  }

  lemma NoKeyEnds(t: string)
    requires IsBare(t)
    ensures t != "" && !IsQuote(t[0]) && forall end: nat :: end <= |t| ==> KeyEndingAt(t, end) == None
  {
    hide ColonFollows;
    assert t[0] in t;
    forall end: nat | end <= |t| ensures KeyEndingAt(t, end) == None {
      NoColonFollows(t, end);
    }
  }

  lemma NoKeyMatches(t: string)
    requires t != "" && !IsQuote(t[0]) && forall end: nat :: end <= |t| ==> KeyEndingAt(t, end) == None
    ensures MatchKey(t) == None
  {
    hide KeyEndingAt, IndexOf, TrimEnd, IsKeyStart, IsSpace;
  }

  lemma BracketOpensNoMap(t: string)
    requires t != "" && t[0] == '['
    ensures !OpensMap(t)
  {
    hide PlainKey, QuoteThenColon;
  }

  lemma TokenOpensNoMap(t: string)
    requires IsToken(t)
    ensures !OpensMap(t)
  {
    hide ColonFollows, MatchKey, IsBare, KeyEndingAt, QuoteThenColon, IsScalarToken;
    if IsBare(t) {
      NoKeyEnds(t);
      NoKeyMatches(t);
    } else if !IsScalarToken(t) {
      hide JoinWith, AreParts;
      BracketOpensNoMap(t);
    } else {
      var q, e := QuotedIs(t);
      assert t[1..] == e + [q];
      PassesQuoteFree(e, [q]);
      LastQuote(q);
    }
  }

  lemma LastQuote(q: char)
    requires IsQuote(q)
    ensures !QuoteThenColon([q])
  {
    assert [q][1..] == "" && !ColonFollows("") && !QuoteThenColon("");
  }

  lemma KeyLineOpensMap(key: string, y: Yaml, style: Style)
    requires Printable(y)
    ensures OpensMap(KeyLine(key, y, style))
  {
    hide MatchKey, Tail, Printable, ColonFollows, QuoteThenColon, IsBare, IsScalarToken, KeyToken;
    KeyMatched(key, y, style);
    var token, x := KeyToken(key, style), ":" + Tail(y, style);
    KeyTokenIsScalar(key, style);
    if IsBare(token) {
      BareHasNoQuote(token);
      assert token[0] in token;
    } else {
      var q, e := QuotedIs(token);
      assert (token + x)[1..] == e + ([q] + x);
      PassesQuoteFree(e, [q] + x);
      QuoteColon(q, y, style);
    }
  }

  lemma QuoteColon(q: char, y: Yaml, style: Style)
    requires IsQuote(q)
    ensures QuoteThenColon([q] + (":" + Tail(y, style)))
  {
    hide ScalarText;
    var x := ":" + Tail(y, style);
    assert ([q] + x)[1..] == x;
    ColonStays(Tail(y, style));
  }

  lemma ItemTextIs(indent: nat, y: Yaml, style: Style)
    requires Printable(y) && !IsNested(y, style)
    ensures IsItem(DashLine(y, style)) && ItemRest(DashLine(y, style)) == ScalarText(y, style)
    ensures var row := Spaces(indent) + DashLine(y, style);
      Uncommenting(ItemValue(Line(row, indent, DashLine(y, style)))) == ScalarText(y, style)
  {
    hide IndexOf, SliceFrom, Trim, TrimStart, ScalarText, Printable, StripComment, IsSpace, IsToken, InBrackets;
    HeadTextIsToken(y, style);
    TokenShape(ScalarText(y, style));
    var gap, t := Gap(y, style), ScalarText(y, style);
    TrimStartSpaces(|gap|, t);
    DashLineVisible(y, style);
    assert DashLine(y, style)[1..] == gap + t;
    assert Spaces(indent) + DashLine(y, style) == (Spaces(indent) + ("-" + gap)) + t;
    ValueFound(Spaces(indent) + ("-" + gap), indent + 1, t);
    UncommentingToken(ScalarText(y, style));
  }

  lemma ItemReads(indent: nat, y: Yaml, rest: Rows, parsed: Parsed<Yaml>, style: Style)
    requires Printable(y) && Value(rest, HeadText(y, style), indent, false) == Ok(parsed)
    ensures var row := Spaces(indent) + DashLine(y, style);
      HasContent(row) && IsItem(LineOf(row).text) && Item([row] + rest, indent) == Ok(parsed)
  {
    hide Value, HasContent, LineOf, OpensMap, IsItem, ItemRest, ItemValue, Uncommenting, Printable, ScalarText,
      MapFrom, WithoutDash, ChildIndent;
    var row := Spaces(indent) + DashLine(y, style);
    DashRow(indent, y, style);
    assert ([row] + rest)[1..] == rest;
    if IsNested(y, style) {
      BareDash();
    } else {
      ItemTextIs(indent, y, style);
      HeadTextIsToken(y, style);
      TokenShape(ScalarText(y, style));
      TokenOpensNoMap(ScalarText(y, style));
    }
  }

  lemma BareDash()
    ensures IsItem("-") && ItemRest("-") == ""
  {
  }

  /** A map that begins on the line of its dash is read from its own column. */
  lemma DashedMapReads(indent: nat, column: nat, key: string, y: Yaml, rest: Rows, style: Style)
    requires Printable(y) && indent + 2 <= column
    ensures var row := Spaces(column) + KeyLine(key, y, style);
      var dashed := WithDash([row] + rest, indent, column);
      HasContent(dashed[0]) && LineOf(dashed[0]).indent == indent && IsItem(LineOf(dashed[0]).text)
      && Item(dashed, indent) == MapFrom([row] + rest, column, [])
  {
    hide Value, HasContent, LineOf, OpensMap, KeyLine, Uncommented, StripComment, Printable, MapFrom, ItemValue, Visible, IsItem,
      ItemRest, Dashed;
    var body := KeyLine(key, y, style);
    var row := Spaces(column) + body;
    var dashed := WithDash([row] + rest, indent, column);
    assert SliceFrom(row, column) == body;
    assert dashed[1..] == rest && ([row] + rest)[1..] == rest;
    DashBody(indent, column, key, y, style);
    KeyLineVisible(key, y, style);
    KeyLineOpensMap(key, y, style);
    DashedSlice(indent, column, body);
  }

  lemma DashedSlice(indent: nat, column: nat, body: string)
    requires indent + 2 <= column
    ensures SliceFrom(Dashed(indent, column, body), column) == body
  {
  }

  lemma DashBody(indent: nat, column: nat, key: string, y: Yaml, style: Style)
    requires Printable(y) && indent + 2 <= column
    ensures var body := KeyLine(key, y, style);
      var row, text := Dashed(indent, column, body), "-" + (Spaces(column - indent - 1) + body);
      HasContent(row) && LineOf(row) == Line(row, indent, text)
      && IsItem(text) && ItemRest(text) == body && body != "" && |text| - |body| == column - indent
  {
    hide HasContent, LineOf, KeyLine, Uncommented, StripComment, Printable;
    var body := KeyLine(key, y, style);
    var lead := "-" + Spaces(column - indent - 1);
    var text := "-" + (Spaces(column - indent - 1) + body);
    assert text == lead + body;
    forall b ensures Uncommented(text, None, b) == text {
      QuietKept(lead, body, b);
      KeyLineKept(key, y, EndsInSpace(lead, b), style);
    }
    IndentKept(indent, text);
    KeyLineVisible(key, y, style);
    ColonIsVisible();
    assert text[|text| - 1] == body[|body| - 1];
    RowInfo(indent, text);
    DashRest(column - indent - 1, body);
  }

  lemma DashRest(n: nat, body: string)
    requires n > 0 && Visible(body)
    ensures var text := "-" + (Spaces(n) + body); IsItem(text) && ItemRest(text) == body
  {
    hide TrimStart, IsSpace;
    var text := "-" + (Spaces(n) + body);
    assert text[1..] == Spaces(n) + body;
    TrimStartSpaces(n, body);
    assert text[..2] == "- ";
  }
}
