/**
 The two readers agree: on every tree of their common dialect, parseYaml of
 scripts/check-observability.mjs and parseYamlStream of
 scripts/check-kubernetes.mjs both give the tree back from its printed text.
 */
module YamlAgreement {
  import opened Text
  import opened YamlScalars
  import opened YamlDocument
  import opened YamlPrinter
  import opened YamlTokens
  import opened YamlRows
  import opened YamlRoundTrip
  import opened YamlStream
  import O = ObservabilityYaml

  // ------------------------------------------------------------- the dialect

  /** A string a pair of double quotes can hold as it is. */
  predicate IsVerbatim(s: string) {
    FitsQuotes(s) && '\\' !in s
  }

  predicate CommonKey(key: string) {
    if IsPlainKey(key) then '/' !in key else IsVerbatim(key)
  }

  /** No escape, no inner quote, no literal block and no `{}`. */
  predicate Common(y: Yaml) {
    match y
    case Decimal(literal) => IsDecimalText(literal) && O.IsNumberText(literal)
    case Str(s) => !IsBlockText(s) && (IsPlainText(s) || IsVerbatim(s))
    case Seq(items) => forall item :: item in items ==> Common(item)
    case Map(entries) =>
      entries != [] && DistinctKeys(entries)
      && forall entry :: entry in entries ==> CommonKey(entry.key) && Common(entry.value)
    case _ => true
  }

  lemma {:induction false} CommonIsPrintable(y: Yaml)
    requires Common(y)
    ensures Printable(y) && !IsBlock(y)
  {
    hide IsDecimalText, O.IsNumberText, IsPlainText, IsVerbatim, IsBlockText;
    if y.Seq? {
      forall item | item in y.items ensures Printable(item) {
        CommonIsPrintable(item);
      }
    } else if y.Map? {
      forall entry | entry in y.entries ensures Printable(entry.value) {
        CommonIsPrintable(entry.value);
      }
    }
  }

  // ------------------------------------------------------ nothing is a comment

  ghost predicate IsSimpleScalar(t: string) {
    IsBare(t) || exists q, s :: IsQuote(q) && FitsQuotes(s) && t == [q] + (s + [q])
  }

  ghost predicate AreSimpleParts(parts: seq<string>) {
    parts != []
    && forall k :: 0 <= k < |parts| ==>
         IsSimpleScalar(parts[k]) && (forall c :: c in parts[k] ==> !IsFlowBracket(c))
         && (IsBare(parts[k]) ==> ',' !in parts[k])
  }

  ghost predicate IsSimpleToken(t: string) {
    IsSimpleScalar(t) || exists parts :: AreSimpleParts(parts) && t == Bracketed(parts)
  }

  lemma {:induction false} VerbatimEscapes(s: string)
    requires IsVerbatim(s)
    ensures Escape(s) == s
  {
    if s == "" {
    } else {
      assert s[0] in s && forall c :: c in s[1..] ==> c in s;
      VerbatimEscapes(s[1..]);
      assert [s[0]] + s[1..] == s;
    }
  }

  lemma TextIsSimple(s: string, plain: bool, quoting: Quoting)
    requires if plain then IsBare(s) else IsVerbatim(s)
    ensures IsSimpleScalar(TextToken(s, plain, quoting))
  {
    hide IsBare, Escape, FitsQuotes;
    if quoting.Single? && FitsQuotes(s) {
      assert "'" + (s + "'") == ['\''] + (s + ['\'']);
    } else if !(plain && (!quoting.Double? || '\\' in s)) {
      if plain {
        BareFits(s);
      }
      VerbatimEscapes(s);
      assert Quoted(s) == ['"'] + (s + ['"']);
    }
  }

  lemma BareFits(s: string)
    requires IsBare(s)
    ensures FitsQuotes(s)
  {
    BareHasNoTerminator(s);
  }

  lemma SimpleKeyToken(key: string, style: Style)
    requires CommonKey(key)
    ensures IsSimpleScalar(KeyToken(key, style))
  {
    hide IsVerbatim, IsSimpleScalar, TextToken;
    if IsPlainKey(key) {
      PlainKeyIsBare(key);
    }
    TextIsSimple(key, IsPlainKey(key), style.quoting(key));
  }

  lemma SimpleScalar(y: Yaml, style: Style)
    requires Common(y) && !IsNested(y, style)
    ensures IsSimpleToken(ScalarText(y, style))
  {
    if y.Seq? && y.items != [] {
      hide IsSimpleScalar, ScalarText, IsBare, IsBlockText, Common, IsDecimalText, O.IsNumberText, IsVerbatim, IsPlainText;
      SimpleParts(y, style);
      ListText(y.items, style);
    } else {
      hide IsSimpleScalar, ScalarText, Common;
      SimplePlain(y, style);
    }
  }

  lemma SimpleParts(y: Yaml, style: Style)
    requires Common(y) && y.Seq? && AreFlowItems(y.items, style)
    ensures AreSimpleParts(ItemTexts(y.items, style))
  {
    hide IsSimpleScalar, ScalarText, IsBare, IsBlockText, IsDecimalText, O.IsNumberText, IsVerbatim, IsPlainText;
    forall k | 0 <= k < |y.items| ensures IsSimpleScalar(ScalarText(y.items[k], style)) {
      assert y.items[k] in y.items;
      SimplePlain(y.items[k], style);
    }
  }

  lemma SimplePlain(y: Yaml, style: Style)
    requires Common(y) && (IsCollection(y) ==> y == Seq([]))
    ensures IsSimpleScalar(ScalarText(y, style))
  {
    hide IsVerbatim, Escape, IsBare, IsDecimalText, O.IsNumberText, IsBlockText, PlainScalar;
    match y
    case Int(n) => IntReads(n);
    case Decimal(literal) => DecimalReads(literal);
    case Str(s) => TextIsSimple(s, IsPlainText(s), style.quoting(s));
    case _ => WordReads(y, style);
  }

  lemma {:induction false} QuietStays(t: string, x: string, atBreak: bool)
    requires IsQuiet(t)
    ensures O.Kept(t + x, None, atBreak) == t + O.Kept(x, None, EndsInSpace(t, atBreak))
  {
    hide IsSpace;
    if t == "" {
      assert "" + x == x;
    } else {
      assert t[0] in t;
      assert (t + x)[1..] == t[1..] + x;
      QuietStays(t[1..], x, IsSpace(t[0]));
    }
  }

  lemma {:induction false} QuotedStays(q: char, s: string, x: string, atBreak: bool)
    requires IsQuote(q) && FitsQuotes(s)
    ensures O.Kept(s + ([q] + x), Some(q), atBreak) == s + ([q] + O.Kept(x, None, false))
  {
    hide IsSpace;
    if s == "" {
      assert "" + ([q] + x) == [q] + x && ([q] + x)[1..] == x;
      QuoteIsNoSpaceHere();
    } else {
      assert s[0] in s && forall c :: c in s[1..] ==> c in s;
      assert (s + ([q] + x))[1..] == s[1..] + ([q] + x);
      QuotedStays(q, s[1..], x, IsSpace(s[0]));
    }
  }

  lemma QuoteIsNoSpaceHere()
    ensures !IsSpace('"') && !IsSpace('\'')
  {
  }

  lemma OpenStays(q: char, x: string, atBreak: bool)
    requires IsQuote(q)
    ensures O.Kept([q] + x, None, atBreak) == [q] + O.Kept(x, Some(q), false)
  {
    assert ([q] + x)[1..] == x;
  }

  lemma ScalarStays(t: string, x: string, atBreak: bool)
    requires IsSimpleScalar(t)
    ensures O.Kept(t + x, None, atBreak) == t + O.Kept(x, None, false)
  {
    hide O.Kept, IsSpace, FitsQuotes;
    if IsBare(t) {
      QuietStays(t, x, atBreak);
    } else {
      hide IsBare, IsQuote;
      var q, s :| IsQuote(q) && FitsQuotes(s) && t == [q] + (s + [q]);
      var rest, more := s + ([q] + x), O.Kept(x, None, false);
      assert t + x == [q] + rest && t + more == [q] + (s + ([q] + more));
      OpenStays(q, rest, atBreak);
      QuotedStays(q, s, x, false);
    }
  }

  lemma {:induction false} PartsStay(parts: seq<string>, x: string, atBreak: bool)
    requires AreSimpleParts(parts)
    ensures var t := JoinWith(parts, ", "); O.Kept(t + x, None, atBreak) == t + O.Kept(x, None, false)
  {
    hide O.Kept, IsSimpleScalar, JoinWith, IsBare;
    if |parts| == 1 {
      JoinedOne(parts);
      ScalarStays(parts[0], x, atBreak);
    } else {
      JoinedFirst(parts);
      var rest := JoinWith(parts[1..], ", ");
      ScalarStays(parts[0], ", " + (rest + x), atBreak);
      QuietStays(", ", rest + x, false);
      PartsStay(parts[1..], x, EndsInSpace(", ", false));
      assert parts[0] + (", " + rest) + x == parts[0] + (", " + (rest + x));
      var more := O.Kept(x, None, false);
      assert parts[0] + (", " + (rest + more)) == parts[0] + (", " + rest) + more;
    }
  }

  lemma TokenStays(t: string, x: string, atBreak: bool)
    requires IsSimpleToken(t)
    ensures O.Kept(t + x, None, atBreak) == t + O.Kept(x, None, false)
  {
    hide O.Kept, IsSpace, IsSimpleScalar, AreSimpleParts, IsQuiet;
    if IsSimpleScalar(t) {
      ScalarStays(t, x, atBreak);
    } else {
      var parts :| AreSimpleParts(parts) && t == Bracketed(parts);
      hide JoinWith;
      var joined, more := JoinWith(parts, ", "), O.Kept(x, None, false);
      BracketIsVisible();
      QuietStays("[", joined + ("]" + x), atBreak);
      PartsStay(parts, "]" + x, false);
      QuietStays("]", x, false);
      assert t + x == "[" + (joined + ("]" + x)) && t + more == "[" + (joined + ("]" + more));
    }
  }

  lemma NothingStays(atBreak: bool)
    ensures O.Kept("", None, atBreak) == ""
  {
  }

  lemma SimpleTail(y: Yaml, atBreak: bool, style: Style)
    requires Common(y)
    ensures O.Kept(Tail(y, style), None, atBreak) == Tail(y, style)
  {
    hide O.Kept, ScalarText, Common, IsSimpleToken;
    NothingStays(atBreak);
    if !IsNested(y, style) {
      SimpleScalar(y, style);
      GapIsSpace(y, style);
      QuietStays(Gap(y, style), ScalarText(y, style), atBreak);
      TokenStays(ScalarText(y, style), "", true);
      NothingStays(false);
      assert ScalarText(y, style) + "" == ScalarText(y, style);
    }
  }

  lemma SimpleKeyLine(key: string, y: Yaml, atBreak: bool, style: Style)
    requires Common(y) && CommonKey(key)
    ensures O.Kept(KeyLine(key, y, style), None, atBreak) == KeyLine(key, y, style)
  {
    hide O.Kept, Tail, KeyToken, Common, IsSimpleScalar;
    SimpleKeyToken(key, style);
    ScalarStays(KeyToken(key, style), ":" + Tail(y, style), atBreak);
    QuietStays(":", Tail(y, style), false);
    SimpleTail(y, false, style);
  }

  // ----------------------------------------------------------- rows as lines

  function ToLine(row: string): O.Line {
    O.Line(LeadingSpaces(row), Trim(row))
  }

  function ToLines(rows: Rows): (lines: O.Lines)
    ensures |lines| == |rows|
  {
    if rows == [] then [] else [ToLine(rows[0])] + ToLines(rows[1..])
  }

  lemma {:induction false} ToLinesJoin(a: Rows, b: Rows)
    ensures ToLines(a + b) == ToLines(a) + ToLines(b)
  {
    hide ToLine;
    if a == [] {
      assert a + b == b;
    } else {
      assert (a + b)[1..] == a[1..] + b;
      ToLinesJoin(a[1..], b);
    }
  }

  /** A row the filter keeps, as the line of its indentation and text. */
  predicate IsLineRow(row: string) {
    var line := TrimEnd(O.WithoutComment(row));
    Trim(line) != "" && '\t' !in O.Leading(line) && Trim(line) != "---" && Trim(line) != "..."
    && O.Line(|O.Leading(line)|, Trim(line)) == ToLine(row)
  }

  lemma {:induction false} FilteredRows(rows: Rows)
    requires forall row :: row in rows ==> IsLineRow(row)
    ensures O.Filtered(rows) == Ok(ToLines(rows))
  {
    hide ToLine, Trim, TrimEnd, O.WithoutComment, O.Leading;
    if rows == [] {
    } else {
      assert IsLineRow(rows[0]);
      FilteredRows(rows[1..]);
    }
  }

  lemma {:induction false} FilteredEnd(rows: Rows)
    requires forall row :: row in rows ==> IsLineRow(row)
    ensures O.Filtered(rows + [""]) == Ok(ToLines(rows))
  {
    hide ToLine, Trim, TrimEnd, O.WithoutComment, O.Leading;
    if rows == [] {
      assert rows + [""] == [""];
      EmptyFiltered();
    } else {
      assert IsLineRow(rows[0]);
      assert (rows + [""])[1..] == rows[1..] + [""];
      FilteredEnd(rows[1..]);
    }
  }

  lemma EmptyFiltered()
    ensures O.Filtered([""]) == Ok([])
  {
    assert [""][1..] == [];
  }

  /** A row of visible text without comment is one line. */
  lemma VisibleRow(indent: nat, body: string)
    requires Visible(body) && body != "---" && body != "..."
    requires forall b :: O.Kept(body, None, b) == body
    ensures var row := Spaces(indent) + body;
      IsLineRow(row) && ToLine(row) == O.Line(indent, body)
  {
    hide O.Kept, IsSpace, TrimStart, TrimEnd;
    var row := Spaces(indent) + body;
    QuietStays(Spaces(indent), body, true);
    assert O.WithoutComment(row) == row;
    assert row[|row| - 1] == body[|body| - 1];
    EndTrims(row);
    TrimStartSpaces(indent, body);
    EndTrims(body);
    SpaceVisible();
    SpacesLead(indent, body);
    assert O.Leading(row) == Spaces(indent);
  }

  lemma EndTrims(t: string)
    requires t != "" && !IsSpace(t[|t| - 1])
    ensures TrimEnd(t) == t
  {
  }

  lemma SpaceVisible()
    ensures IsSpace(' ')
  {
  }

  lemma KeyRowLine(indent: nat, key: string, y: Yaml, style: Style)
    requires Common(y) && CommonKey(key)
    ensures var row := Spaces(indent) + KeyLine(key, y, style);
      IsLineRow(row) && ToLine(row) == O.Line(indent, KeyLine(key, y, style)) && !O.IsItem(KeyLine(key, y, style))
  {
    hide O.Kept, KeyLine, Common, CommonKey, Visible, IsLineRow, ToLine, KeyToken;
    CommonIsPrintable(y);
    forall b ensures O.Kept(KeyLine(key, y, style), None, b) == KeyLine(key, y, style) {
      SimpleKeyLine(key, y, b, style);
    }
    KeyLineVisible(key, y, style);
    KeyLineIsNoMarker(key, y, style);
    VisibleRow(indent, KeyLine(key, y, style));
  }

  lemma KeyLineIsNoMarker(key: string, y: Yaml, style: Style)
    ensures KeyLine(key, y, style) != "---" && KeyLine(key, y, style) != "..."
  {
    hide Tail;
    KeyTokenLetter(key, style);
    assert KeyLine(key, y, style)[0] == KeyToken(key, style)[0];
  }

  lemma DashRowLine(indent: nat, y: Yaml, style: Style)
    requires Common(y)
    ensures var row := Spaces(indent) + DashLine(y, style);
      IsLineRow(row) && ToLine(row) == O.Line(indent, DashLine(y, style)) && O.IsItem(DashLine(y, style))
  {
    hide O.Kept, Common, Visible, IsLineRow, ToLine, ScalarText;
    CommonIsPrintable(y);
    forall b ensures O.Kept(DashLine(y, style), None, b) == DashLine(y, style) {
      hide Tail;
      QuietStays("-", Tail(y, style), b);
      SimpleTail(y, false, style);
    }
    DashLineVisible(y, style);
    assert IsNested(y, style) || DashLine(y, style)[1] == ' ';
    VisibleRow(indent, DashLine(y, style));
  }

  lemma DashedVisible(n: nat, t: string)
    requires Visible(t) && n > 0
    ensures var text := "-" + (Spaces(n) + t); Visible(text) && text != "---" && text != "..."
  {
    hide IsSpace;
    DashIsVisible();
    var text := "-" + (Spaces(n) + t);
    assert text[1] == ' ' && text[|text| - 1] == t[|t| - 1];
  }

  lemma DashIsVisible()
    ensures !IsSpace('-')
  {
  }

  lemma DashedRowLine(indent: nat, column: nat, key: string, y: Yaml, style: Style)
    requires Common(y) && CommonKey(key) && indent + 2 <= column
    ensures var body := KeyLine(key, y, style);
      IsLineRow(Dashed(indent, column, body))
      && ToLine(Dashed(indent, column, body)) == O.Line(indent, "-" + (Spaces(column - indent - 1) + body))
  {
    hide O.Kept, KeyLine, Common, CommonKey, IsLineRow, ToLine, IsSpace, Visible;
    CommonIsPrintable(y);
    var n := column - indent - 1;
    var body := "-" + (Spaces(n) + KeyLine(key, y, style));
    forall b ensures O.Kept(body, None, b) == body {
      DashStays(n, KeyLine(key, y, style), b);
      SimpleKeyLine(key, y, true, style);
    }
    KeyLineVisible(key, y, style);
    DashedVisible(n, KeyLine(key, y, style));
    VisibleRow(indent, body);
  }

  lemma DashStays(n: nat, t: string, atBreak: bool)
    requires n > 0
    ensures O.Kept("-" + (Spaces(n) + t), None, atBreak) == "-" + (Spaces(n) + O.Kept(t, None, true))
  {
    hide O.Kept, IsSpace;
    SpaceVisible();
    var lead := "-" + Spaces(n);
    QuietStays(lead, t, atBreak);
    assert "-" + (Spaces(n) + t) == lead + t;
    assert "-" + (Spaces(n) + O.Kept(t, None, true)) == lead + O.Kept(t, None, true);
  }

  // ------------------------------------------------------------- the pattern

  lemma {:induction false} EntryRunIs(a: string, x: string)
    requires (forall c :: c in a ==> O.IsEntryChar(c)) && (x == "" || !O.IsEntryChar(x[0]))
    ensures O.EntryRun(a + x) == |a|
  {
    if a == "" {
      assert a + x == x;
    } else {
      assert a[0] in a;
      assert (a + x)[1..] == a[1..] + x;
      EntryRunIs(a[1..], x);
    }
  }

  lemma PlainKeyLength(key: string, x: string)
    requires IsPlainKey(key) && '/' !in key
    ensures O.KeyLength(key + (":" + x)) == Some(|key|)
  {
    var t := key + (":" + x);
    assert t[1..] == key[1..] + (":" + x);
    assert forall c :: c in key[1..] ==> c in key;
    EntryRunIs(key[1..], ":" + x);
  }

  lemma QuotedKeyLength(q: char, s: string, x: string)
    requires IsQuote(q) && FitsQuotes(s)
    ensures O.KeyLength([q] + (s + ([q] + x))) == Some(|s| + 2)
  {
    hide IndexOf;
    var t := [q] + (s + ([q] + x));
    assert t[|s| + 1..|s| + 2] == [q];
    assert forall k :: 1 <= k < |s| + 1 ==> t[k] == s[k - 1] && s[k - 1] in s;
    FirstAt(t, [q], 1, |s| + 1);
  }

  lemma KeyTokenLength(key: string, y: Yaml, style: Style)
    requires CommonKey(key)
    ensures O.KeyLength(KeyLine(key, y, style)) == Some(|KeyToken(key, style)|)
  {
    hide O.KeyLength, Tail, IsVerbatim, FitsQuotes, IsBare, KeyToken, Quoted;
    var token, x := KeyToken(key, style), ":" + Tail(y, style);
    KeyTokenIs(key, style);
    if IsPlainKey(key) && token == key {
      PlainKeyLength(key, Tail(y, style));
    } else {
      SimpleKeyToken(key, style);
      QuotedNotBare(key);
      var q, s :| IsQuote(q) && FitsQuotes(s) && token == [q] + (s + [q]);
      assert token + x == [q] + (s + ([q] + x));
      QuotedKeyLength(q, s, x);
    }
  }

  lemma QuotedNotBare(key: string)
    ensures !IsBare(Quoted(key)) && !IsBare("'" + (key + "'"))
  {
    assert Quoted(key)[0] in Quoted(key);
    assert ("'" + (key + "'"))[0] in "'" + (key + "'");
  }

  lemma EntryAt(token: string, tail: string)
    requires O.KeyLength(token + (":" + tail)) == Some(|token|)
    requires tail == "" || (IsSpace(tail[0]) && forall c :: c in TrimStart(tail) ==> !IsLineTerminator(c))
    ensures O.MatchEntry(token + (":" + tail))
         == Some(KeyMatch(token, if tail == "" then None else Some(TrimStart(tail))))
  {
    hide O.KeyLength, IsSpace, TrimStart;
    var t := token + (":" + tail);
    assert t[..|token|] == token;
    assert t[|token| + 1..] == tail;
  }

  lemma EntryMatched(key: string, y: Yaml, style: Style)
    requires Common(y) && CommonKey(key)
    ensures O.MatchEntry(KeyLine(key, y, style)) == Some(KeyMatch(KeyToken(key, style), ValueText(y, style)))
  {
    hide O.KeyLength, O.MatchEntry, Tail, Common, CommonKey, KeyToken, IsSpace, TrimStart, IsNested, ScalarText;
    KeyTokenLength(key, y, style);
    TailTrims(y, style);
    EntryAt(KeyToken(key, style), Tail(y, style));
  }

  lemma TailTrims(y: Yaml, style: Style)
    requires Common(y)
    ensures IsNested(y, style) <==> Tail(y, style) == ""
    ensures !IsNested(y, style) ==>
      var tail := Tail(y, style);
      IsSpace(tail[0]) && TrimStart(tail) == ScalarText(y, style) && forall c :: c in TrimStart(tail) ==> !IsLineTerminator(c)
  {
    hide ScalarText, Common, IsSpace, TrimStart, IsLineTerminator, IsToken, IsNested, IsQuiet;
    if !IsNested(y, style) {
      CommonIsPrintable(y);
      HeadTextIsToken(y, style);
      TokenShape(ScalarText(y, style));
      GapIsSpace(y, style);
      TrimStartSpaces(style.gap(y) + 1, ScalarText(y, style));
    }
  }

  lemma BareIsNoEntry(t: string)
    requires IsBare(t)
    ensures O.MatchEntry(t) == None
  {
    hide O.KeyLength;
    assert t[0] in t;
    match O.KeyLength(t)
    case None =>
    case Some(n) => assert n < |t| && t[n] == ':' ==> n + 1 < |t| && t[n + 1..][0] == t[n + 1];
  }

  lemma SimpleIsNoEntry(t: string)
    requires IsSimpleToken(t)
    ensures O.MatchEntry(t) == None
  {
    hide IsBare, IsVerbatim, AreSimpleParts, JoinWith;
    if IsBare(t) {
      BareIsNoEntry(t);
    } else if IsSimpleScalar(t) {
      hide O.KeyLength, FitsQuotes;
      var q, s :| IsQuote(q) && FitsQuotes(s) && t == [q] + (s + [q]);
      assert t == [q] + (s + ([q] + ""));
      QuotedKeyLength(q, s, "");
    }
  }

  // -------------------------------------------------------------- the scalars

  lemma NumberTextIsNumber(t: string)
    requires O.IsNumberText(t)
    ensures IsIntegerText(t) || IsDecimalText(t)
  {
    hide DigitRun;
    var u := if t[0] == '-' then t[1..] else t;
    var whole := DigitRun(u);
    assert Unsigned(t) == u by {
      DigitNoSign(u);
    }
    if whole < |u| {
      var s := u[whole..];
      assert s[1..] == u[whole + 1..];
      assert s[1..][DigitRun(s[1..])..] == "";
    }
  }

  lemma DigitNoSign(u: string)
    ensures DigitRun(u) > 0 ==> u != "" && IsDigit(u[0])
  {
  }

  lemma PlainWord(s: string)
    requires IsPlainText(s)
    ensures O.Scalar(s) == Ok(Str(s))
  {
    hide IsBare, O.IsNumberText, IsIntegerText, IsDecimalText;
    BareStart(s);
    if O.IsNumberText(s) {
      NumberTextIsNumber(s);
    }
  }

  lemma PlainIsBare(s: string)
    requires IsPlainText(s)
    ensures IsBare(s)
  {
  }

  lemma BareStart(s: string)
    requires IsBare(s)
    ensures s != "" && !IsQuote(s[0])
  {
    assert s[0] in s;
  }

  lemma QuotedScalar(q: char, s: string)
    requires IsQuote(q)
    ensures O.Scalar([q] + (s + [q])) == Ok(Str(s))
  {
    var t := [q] + (s + [q]);
    assert t[1..|t| - 1] == s;
  }

  lemma TextAgrees(s: string, plain: bool, quoting: Quoting)
    requires if plain then IsBare(s) && O.Scalar(s) == Ok(Str(s)) else IsVerbatim(s)
    ensures O.Scalar(TextToken(s, plain, quoting)) == Ok(Str(s))
  {
    hide IsBare, Escape, FitsQuotes, O.Scalar;
    QuotedScalar('\'', s);
    QuotedScalar('"', s);
    assert "'" + (s + "'") == ['\''] + (s + ['\'']);
    if !(quoting.Single? && FitsQuotes(s)) && !(plain && (!quoting.Double? || '\\' in s)) {
      if plain {
        BareFits(s);
      }
      VerbatimEscapes(s);
      assert Quoted(s) == ['"'] + (s + ['"']);
    }
  }

  lemma NumberWord(t: string)
    requires O.IsNumberText(t) && t != "" && NumberChars(t)
    ensures O.Scalar(t) == Ok(O.Number(t))
  {
    hide O.IsNumberText, O.Number;
    assert IsNumberChar(t[0]);
    assert |t| > 1 ==> IsNumberChar(t[1]);
  }

  lemma IntWord(n: int)
    ensures O.Scalar(IntText(n)) == Ok(Int(n))
  {
    hide DigitRun, DigitsValue, NatText, O.Scalar;
    var t := IntText(n);
    var m := if n < 0 then -n else n;
    NatDigits(m);
    assert n < 0 ==> t[1..] == NatText(m);
    assert forall k :: 0 <= k < |NatText(m)| ==> IsDigit(NatText(m)[k]);
    assert Unsigned(t) == NatText(m);
    NumberWord(t);
  }

  lemma ScalarAgrees(y: Yaml, style: Style)
    requires Common(y) && !IsNested(y, style)
    ensures O.Scalar(ScalarText(y, style)) == Ok(y)
  {
    if y.Seq? && y.items != [] {
      hide ScalarText, O.Scalar, IsBare, IsBlockText, IsSimpleScalar, IsDecimalText, O.IsNumberText, IsVerbatim, IsPlainText;
      forall k | 0 <= k < |y.items| ensures O.Scalar(ScalarText(y.items[k], style)) == Ok(y.items[k]) {
        assert y.items[k] in y.items;
        PlainAgrees(y.items[k], style);
      }
      SimpleParts(y, style);
      ListText(y.items, style);
      BracketedAgrees(ItemTexts(y.items, style), y.items);
    } else {
      hide ScalarText, O.Scalar, Common;
      PlainAgrees(y, style);
    }
  }

  lemma PlainAgrees(y: Yaml, style: Style)
    requires Common(y) && (IsCollection(y) ==> y == Seq([]))
    ensures O.Scalar(ScalarText(y, style)) == Ok(y)
  {
    hide IsBare, O.IsNumberText, IsDecimalText, IsBlockText, IsVerbatim, TextToken, NatText, O.Scalar, IsPlainText;
    match y
    case Int(n) => IntWord(n);
    case Decimal(literal) =>
      DecimalChars(literal);
      NumberWord(literal);
      DecimalIsNoInteger(literal);
    case Str(s) =>
      if IsPlainText(s) {
        PlainWord(s);
        PlainIsBare(s);
      }
      TextAgrees(s, IsPlainText(s), style.quoting(s));
    case _ => WordAgrees(y, style);
  }

  // -------------------------------------------------------- lists in brackets

  lemma CharSplits(c: char, rest: string, current: string, quote: Option<char>)
    requires quote.None? ==> !IsQuote(c) && c != ',' && !IsFlowBracket(c)
    ensures O.SplitFlow([c] + rest, current, quote)
         == O.SplitFlow(rest, current + [c], if quote == Some(c) then None else quote)
  {
    assert ([c] + rest)[1..] == rest;
  }

  lemma {:induction false} TextSplits(t: string, rest: string, current: string, quote: Option<char>)
    requires forall c :: c in t ==> !IsQuote(c) && (quote.None? ==> c != ',' && !IsFlowBracket(c))
    requires quote.Some? ==> IsQuote(quote.value)
    ensures O.SplitFlow(t + rest, current, quote) == O.SplitFlow(rest, current + t, quote)
    decreases |t|
  {
    hide O.SplitFlow;
    if t == "" {
      assert t + rest == rest && current + t == current;
    } else {
      assert t[0] in t;
      assert t + rest == [t[0]] + (t[1..] + rest);
      CharSplits(t[0], t[1..] + rest, current, quote);
      TextSplits(t[1..], rest, current + [t[0]], quote);
      assert current + [t[0]] + t[1..] == current + t;
    }
  }

  lemma OpenQuoteSplits(q: char, x: string, current: string)
    requires IsQuote(q)
    ensures O.SplitFlow([q] + x, current, None) == O.SplitFlow(x, current + [q], Some(q))
  {
    assert ([q] + x)[1..] == x;
  }

  lemma QuotedSplits(q: char, s: string, rest: string, current: string)
    requires IsQuote(q) && FitsQuotes(s)
    ensures O.SplitFlow([q] + (s + ([q] + rest)), current, None) == O.SplitFlow(rest, current + ([q] + (s + [q])), None)
  {
    hide O.SplitFlow;
    OpenQuoteSplits(q, s + ([q] + rest), current);
    TextSplits(s, [q] + rest, current + [q], Some(q));
    CharSplits(q, rest, current + [q] + s, Some(q));
    assert current + [q] + s + [q] == current + ([q] + (s + [q]));
  }

  lemma PartSplits(t: string, rest: string, current: string)
    requires AreSimpleParts([t])
    ensures O.SplitFlow(t + rest, current, None) == O.SplitFlow(rest, current + t, None)
  {
    hide O.SplitFlow, IsBare, FitsQuotes;
    assert [t][0] == t;
    if IsBare(t) {
      BareHasNoQuote(t);
      TextSplits(t, rest, current, None);
    } else {
      var q, s :| IsQuote(q) && FitsQuotes(s) && t == [q] + (s + [q]);
      QuotedSplits(q, s, rest, current);
      assert t + rest == [q] + (s + ([q] + rest));
    }
  }

  lemma CommaSplits(rest: string, current: string)
    ensures O.SplitFlow(", " + rest, current, None)
         == match O.SplitFlow(rest, " ", None)
            case Ok(items) => Ok([current] + items)
            case Err(e) => Err(e)
  {
    assert (", " + rest)[1..] == " " + rest;
    assert (" " + rest)[1..] == rest;
    assert "" + [' '] == " ";
  }

  lemma LastItemSplits(current: string)
    requires Trim(current) != ""
    ensures O.SplitFlow("", current, None) == Ok([current])
  {
  }

  lemma SimpleTrims(t: string, lead: string)
    requires IsSimpleScalar(t) && (lead == "" || lead == " ")
    ensures Trim(lead + t) == t && t != ""
  {
    hide IsBare, Trim, IsSpace, IsVerbatim;
    if IsBare(t) {
      ScalarTokenShape(t);
    } else {
      QuoteIsNoSpaceHere();
    }
    TrimSpaces(|lead|, t);
    assert Spaces(|lead|) == lead;
  }

  lemma {:induction false} PartsSplit(parts: seq<string>, lead: string)
    requires AreSimpleParts(parts) && (lead == "" || lead == " ")
    ensures O.SplitFlow(JoinWith(parts, ", "), lead, None) == Ok(Led(parts, lead))
    decreases |parts|
  {
    hide O.SplitFlow, IsSimpleScalar, JoinWith, IsBare;
    SimpleTrims(parts[0], lead);
    assert [parts[0]][0] == parts[0];
    if |parts| == 1 {
      JoinedOne(parts);
      PartSplits(parts[0], "", lead);
      assert parts[0] + "" == parts[0];
      LastItemSplits(lead + parts[0]);
      LedOne(parts, lead);
    } else {
      JoinedFirst(parts);
      var rest := JoinWith(parts[1..], ", ");
      PartSplits(parts[0], ", " + rest, lead);
      CommaSplits(rest, lead + parts[0]);
      PartsSplit(parts[1..], " ");
    }
  }

  lemma {:induction false} LedAgree(parts: seq<string>, lead: string, items: seq<Yaml>, bound: nat)
    requires |parts| == |items| && (lead == "" || lead == " ")
    requires forall k :: 0 <= k < |parts| ==> IsSimpleScalar(parts[k]) && O.Scalar(parts[k]) == Ok(items[k])
    requires forall item :: item in Led(parts, lead) ==> |item| <= bound
    ensures O.Scalars(Led(parts, lead), bound) == Ok(items)
    decreases |parts|
  {
    hide O.Scalar, IsSimpleScalar, Trim;
    if parts == [] {
    } else {
      SimpleTrims(parts[0], lead);
      assert Led(parts, lead)[1..] == Led(parts[1..], " ");
      LedAgree(parts[1..], " ", items[1..], bound);
      assert [items[0]] + items[1..] == items;
    }
  }

  /** A list in brackets is read as what its parts are read as. */
  lemma BracketedAgrees(parts: seq<string>, items: seq<Yaml>)
    requires AreSimpleParts(parts) && |parts| == |items|
    requires forall k :: 0 <= k < |parts| ==> O.Scalar(parts[k]) == Ok(items[k])
    ensures O.Scalar(Bracketed(parts)) == Ok(Seq(items))
  {
    var t, inner := Bracketed(parts), JoinWith(parts, ", ");
    hide IsSimpleScalar, IsBare, O.SplitFlow, O.Scalars, JoinWith, Led;
    assert t[1..|t| - 1] == inner;
    PartsSplit(parts, "");
    ScalarOpens(t, items, Led(parts, ""));
    LedAgree(parts, "", items, |inner|);
  }

  lemma ScalarOpens(t: string, items: seq<Yaml>, pieces: seq<string>)
    requires |t| >= 2 && t[0] == '[' && t[|t| - 1] == ']' && O.SplitFlow(t[1..|t| - 1], "", None) == Ok(pieces)
    ensures (forall item :: item in pieces ==> |item| <= |t| - 2)
    ensures O.Scalars(pieces, |t| - 2) == Ok(items) ==> O.Scalar(t) == Ok(Seq(items))
  {
    hide O.SplitFlow, O.Scalars;
  }

  lemma WordAgrees(y: Yaml, style: Style)
    requires y in {Null, Bool(true), Bool(false), Seq([])}
    ensures O.Scalar(ScalarText(y, style)) == Ok(y)
  {
    EmptyListText(style);
    WordTexts(style);
    hide O.Scalar, ScalarText;
    NullWord();
    FlagWords();
    EmptyWord();
  }

  lemma WordTexts(style: Style)
    ensures ScalarText(Null, style) == "null" && ScalarText(Bool(true), style) == "true" && ScalarText(Bool(false), style) == "false"
  {
  }

  lemma NullWord()
    ensures O.Scalar("null") == Ok(Null)
  {
    hide O.IsNumberText;
  }

  lemma FlagWords()
    ensures O.Scalar("true") == Ok(Bool(true)) && O.Scalar("false") == Ok(Bool(false))
  {
    hide O.IsNumberText;
  }

  lemma EmptyWord()
    ensures O.Scalar("[]") == Ok(Seq([]))
  {
    assert "[]"[1..1] == "";
  }

  lemma KeyAgrees(key: string, style: Style)
    requires CommonKey(key)
    ensures O.Scalar(KeyToken(key, style)).Ok? && !IsCollection(O.Scalar(KeyToken(key, style)).value)
    ensures KeyText(O.Scalar(KeyToken(key, style)).value) == key
  {
    hide O.Scalar, IsVerbatim, KeyToken, TextToken;
    if IsPlainKey(key) && KeyToken(key, style) == key {
      PlainKeyAgrees(key);
    } else {
      TokenWithoutPlain(key, style);
      KeyIsVerbatim(key);
      TextAgrees(key, false, style.quoting(key));
    }
  }

  lemma TokenWithoutPlain(key: string, style: Style)
    ensures (IsPlainKey(key) && KeyToken(key, style) == key) || KeyToken(key, style) == TextToken(key, false, style.quoting(key))
  {
    hide Quoted;
  }

  lemma KeyIsVerbatim(key: string)
    requires CommonKey(key)
    ensures IsVerbatim(key)
  {
  }

  lemma PlainKeyAgrees(key: string)
    requires IsPlainKey(key)
    ensures O.Scalar(key).Ok? && !IsCollection(O.Scalar(key).value)
    ensures KeyText(O.Scalar(key).value) == key
  {
    assert key[0] in key;
  }

  // ---------------------------------------------------------------- the tree

  predicate Before(tail: O.Lines, indent: int, items: bool) {
    tail == [] || tail[0].indent < indent || (tail[0].indent == indent && (O.IsItem(tail[0].text) ==> items))
  }

  /** The lines of a map's rows and of what follows them. */
  function MapLines(entries: seq<Entry>, indent: nat, tail: O.Lines, style: Style): O.Lines {
    ToLines(PrintMap(entries, indent, style)) + tail
  }

  function SeqLines(items: seq<Yaml>, indent: nat, tail: O.Lines, style: Style): O.Lines {
    ToLines(PrintSeq(items, indent, style)) + tail
  }

  /** The lines under a key or a dash. */
  function UnderLines(y: Yaml, indent: nat, inMap: bool, tail: O.Lines, style: Style): O.Lines {
    ToLines(PrintUnder(y, indent, inMap, style)) + tail
  }

  lemma ScalarUnder(y: Yaml, indent: nat, inMap: bool, tail: O.Lines, style: Style)
    requires Common(y) && !IsNested(y, style)
    ensures UnderLines(y, indent, inMap, tail, style) == tail
  {
    hide Common, PrintUnder;
    CommonIsPrintable(y);
    NothingUnder(y, indent, inMap, style);
  }

  lemma NestedUnder(y: Yaml, indent: nat, inMap: bool, tail: O.Lines, style: Style)
    requires Common(y) && IsNested(y, style)
    ensures y.Map? ==> UnderLines(y, indent, inMap, tail, style) == MapLines(y.entries, Column(y, indent, inMap, style), tail, style)
    ensures y.Seq? ==>
      UnderLines(y, indent, inMap, tail, style) == SeqLines(y.items, Column(y, indent, inMap, style), tail, style)
  {
    hide Common, PrintMap, PrintSeq, ToLines;
  }

  lemma {:induction false} UnderAgrees(y: Yaml, indent: nat, inMap: bool, tail: O.Lines, style: Style)
    requires Common(y) && Before(tail, indent, !inMap)
    ensures inMap || !IsNested(y, style) ==>
      O.EntryValue(UnderLines(y, indent, inMap, tail, style), indent, ValueText(y, style)) == Ok(O.Parsed(y, tail))
    ensures IsNested(y, style) ==>
      var lines := UnderLines(y, indent, inMap, tail, style);
      lines != [] && (!inMap ==> lines[0].indent > indent)
      && O.Block(lines, lines[0].indent) == Ok(O.Parsed(y, tail))
    decreases y, 0
  {
    hide UnderLines, MapLines, SeqLines, O.IsItem, O.Scalar, O.MapFrom, O.SequenceFrom, ScalarText, Common;
    CommonIsPrintable(y);
    if !IsNested(y, style) {
      ScalarUnder(y, indent, inMap, tail, style);
      ScalarAgrees(y, style);
      HeadTextIsToken(y, style);
      TokenShape(ScalarText(y, style));
    } else if y.Map? {
      NestedUnder(y, indent, inMap, tail, style);
      CommonParts(y);
      var column := Column(y, indent, inMap, style);
      MapAgrees(y.entries, column, [], tail, style);
      MapFirstLine(y.entries, column, tail, style);
      assert [] + y.entries == y.entries;
    } else {
      NestedUnder(y, indent, inMap, tail, style);
      CommonParts(y);
      var column := Column(y, indent, inMap, style);
      SeqAgrees(y.items, column, [], tail, style);
      SeqFirstLine(y.items, column, tail, style);
      assert [] + y.items == y.items;
    }
  }

  predicate CommonEntries(entries: seq<Entry>) {
    forall entry :: entry in entries ==> CommonKey(entry.key) && Common(entry.value)
  }

  predicate CommonItems(items: seq<Yaml>) {
    forall item :: item in items ==> Common(item)
  }

  lemma CommonParts(y: Yaml)
    requires Common(y)
    ensures y.Map? ==> CommonEntries(y.entries) && DistinctKeys(y.entries)
    ensures y.Seq? ==> CommonItems(y.items)
  {
    hide CommonKey;
  }

  lemma MapFirstLine(entries: seq<Entry>, indent: nat, tail: O.Lines, style: Style)
    requires entries != [] && CommonEntries(entries)
    ensures var lines := MapLines(entries, indent, tail, style);
      lines != [] && lines[0].indent == indent && !O.IsItem(lines[0].text)
  {
    hide ToLine, O.IsItem, KeyLine, Common, CommonKey, UnderLines, MapLines;
    assert entries[0] in entries;
    KeyRowLine(indent, entries[0].key, entries[0].value, style);
    MapLinesOpen(entries, indent, tail, style);
  }

  lemma SeqFirstLine(items: seq<Yaml>, indent: nat, tail: O.Lines, style: Style)
    requires items != [] && CommonItems(items)
    ensures var lines := SeqLines(items, indent, tail, style);
      lines != [] && lines[0].indent == indent && O.IsItem(lines[0].text)
  {
    hide ToLines, SeqLines, Common, PrintItem, O.IsItem;
    assert items[0] in items;
    SeqLinesOpen(items, indent, tail, style);
    ItemFirstLine(items[0], indent, SeqLines(items[1..], indent, tail, style), style);
  }

  lemma ItemFirstLine(y: Yaml, indent: nat, tail: O.Lines, style: Style)
    requires Common(y)
    ensures var lines := ToLines(PrintItem(y, indent, style)) + tail;
      lines != [] && lines[0].indent == indent && O.IsItem(lines[0].text)
  {
    hide ToLine, ToLines, KeyLine, DashLine, Common, CommonKey, UnderLines, PrintItem, O.IsItem;
    if IsOnDash(y, style) {
      CommonParts(y);
      CommonRest(y.entries);
      var under := MapItemLines(y, indent, tail, style);
      var e, column := y.entries[0], DashColumn(y, indent, style);
      DashedRowLine(indent, column, e.key, e.value, style);
      DashedRest(indent, column, e.key, e.value, style);
    } else {
      DashLines(y, indent, tail, style);
      DashRowLine(indent, y, style);
    }
  }

  /** What follows an entry, further entries or the tail, ends its value. */
  lemma EntriesAfter(entries: seq<Entry>, indent: nat, tail: O.Lines, style: Style)
    requires CommonEntries(entries) && Before(tail, indent - 1, true)
    ensures Before(MapLines(entries, indent, tail, style), indent, false)
  {
    hide O.IsItem, CommonEntries;
    if entries == [] {
      NoLines(indent, tail, style);
    } else {
      hide MapLines;
      MapFirstLine(entries, indent, tail, style);
    }
  }

  lemma NoLines(indent: nat, tail: O.Lines, style: Style)
    ensures MapLines([], indent, tail, style) == tail && SeqLines([], indent, tail, style) == tail
  {
    EmptyMap(indent, style);
  }

  lemma EntriesEnd(indent: nat, out: seq<Entry>, tail: O.Lines, style: Style)
    requires Before(tail, indent - 1, true)
    ensures O.MapFrom(MapLines([], indent, tail, style), indent, out) == Ok(O.Parsed(Map(out), tail))
  {
    hide MapLines, O.IsItem, O.EntryValue;
    NoLines(indent, tail, style);
  }

  lemma CommonRest(entries: seq<Entry>)
    requires entries != [] && CommonEntries(entries)
    ensures CommonKey(entries[0].key) && Common(entries[0].value) && CommonEntries(entries[1..])
  {
    hide CommonKey, Common;
    assert entries[0] in entries;
  }

  lemma MovedOver(out: seq<Entry>, entries: seq<Entry>)
    requires entries != []
    ensures out + [entries[0]] + entries[1..] == out + entries
  {
  }

  lemma {:induction false} MapAgrees(entries: seq<Entry>, indent: nat, out: seq<Entry>, tail: O.Lines, style: Style)
    requires CommonEntries(entries) && DistinctKeys(out + entries) && Before(tail, indent - 1, true)
    ensures O.MapFrom(MapLines(entries, indent, tail, style), indent, out) == Ok(O.Parsed(Map(out + entries), tail))
    decreases entries
  {
    hide *;
    if entries == [] {
      EntriesEnd(indent, out, tail, style);
      assert out + entries == out;
    } else {
      var e, next := entries[0], MapLines(entries[1..], indent, tail, style);
      CommonRest(entries);
      EntriesAfter(entries[1..], indent, tail, style);
      UnderAgrees(e.value, indent, true, next, style);
      NewKey(out, entries);
      EntryAgrees(e, indent, out, UnderLines(e.value, indent, true, next, style), next, style);
      MapLinesOpen(entries, indent, tail, style);
      MovedOver(out, entries);
      MapAgrees(entries[1..], indent, out + [e], tail, style);
    }
  }

  lemma EntryAgrees(e: Entry, indent: nat, out: seq<Entry>, lines: O.Lines, next: O.Lines, style: Style)
    requires Common(e.value) && CommonKey(e.key) && !HasKey(out, e.key)
    requires O.EntryValue(lines, indent, ValueText(e.value, style)) == Ok(O.Parsed(e.value, next))
    ensures O.MapFrom([ToLine(Spaces(indent) + KeyLine(e.key, e.value, style))] + lines, indent, out)
         == O.MapFrom(next, indent, out + [e])
  {
    hide ToLine, O.IsItem, O.Scalar, O.MatchEntry, O.EntryValue, KeyLine, Common, CommonKey, KeyText, ScalarText,
      HasKey;
    var all := [ToLine(Spaces(indent) + KeyLine(e.key, e.value, style))] + lines;
    assert all[1..] == lines;
    KeyRowLine(indent, e.key, e.value, style);
    EntryMatched(e.key, e.value, style);
    KeyAgrees(e.key, style);
    assert Entry(e.key, e.value) == e;
  }

  lemma MapLinesOpen(entries: seq<Entry>, indent: nat, tail: O.Lines, style: Style)
    requires entries != []
    ensures var e := entries[0];
      MapLines(entries, indent, tail, style)
      == [ToLine(Spaces(indent) + KeyLine(e.key, e.value, style))]
         + UnderLines(e.value, indent, true, MapLines(entries[1..], indent, tail, style), style)
  {
    hide ToLine, KeyLine, PrintUnder;
    var row := Spaces(indent) + KeyLine(entries[0].key, entries[0].value, style);
    var under := PrintUnder(entries[0].value, indent, true, style);
    var rest := PrintMap(entries[1..], indent, style);
    assert PrintMap(entries, indent, style) == [row] + (under + rest);
    ToLinesJoin(under, rest);
    assert ([row] + (under + rest))[1..] == under + rest;
  }

  lemma SeqLinesOpen(items: seq<Yaml>, indent: nat, tail: O.Lines, style: Style)
    requires items != []
    ensures SeqLines(items, indent, tail, style)
         == ToLines(PrintItem(items[0], indent, style)) + SeqLines(items[1..], indent, tail, style)
  {
    hide ToLines, PrintItem;
    ToLinesJoin(PrintItem(items[0], indent, style), PrintSeq(items[1..], indent, style));
  }

  /** What follows an item, further items or the tail, ends it. */
  lemma ItemsAfter(items: seq<Yaml>, indent: nat, tail: O.Lines, style: Style)
    requires CommonItems(items) && Before(tail, indent, false)
    ensures Before(SeqLines(items, indent, tail, style), indent, true)
  {
    hide O.IsItem, CommonItems;
    if items == [] {
      NoLines(indent, tail, style);
    } else {
      hide SeqLines;
      SeqFirstLine(items, indent, tail, style);
    }
  }

  lemma ItemsEnd(indent: nat, out: seq<Yaml>, tail: O.Lines, style: Style)
    requires Before(tail, indent, false)
    ensures O.SequenceFrom(SeqLines([], indent, tail, style), indent, out) == Ok(O.Parsed(Seq(out), tail))
  {
    hide SeqLines, O.IsItem, O.Item;
    NoLines(indent, tail, style);
  }

  lemma ItemStep(lines: O.Lines, indent: nat, out: seq<Yaml>, y: Yaml, next: O.Lines)
    requires lines != [] && lines[0].indent == indent && O.IsItem(lines[0].text)
    requires O.Item(lines, indent) == Ok(O.Parsed(y, next))
    ensures O.SequenceFrom(lines, indent, out) == O.SequenceFrom(next, indent, out + [y])
  {
    hide O.IsItem, O.Item;
  }

  lemma {:induction false} SeqAgrees(items: seq<Yaml>, indent: nat, out: seq<Yaml>, tail: O.Lines, style: Style)
    requires CommonItems(items) && Before(tail, indent, false)
    ensures O.SequenceFrom(SeqLines(items, indent, tail, style), indent, out) == Ok(O.Parsed(Seq(out + items), tail))
    decreases items
  {
    hide SeqLines, ToLines, Before, O.IsItem, O.Item, O.SequenceFrom, PrintItem, Common;
    if items == [] {
      ItemsEnd(indent, out, tail, style);
      assert out + items == out;
    } else {
      assert items[0] in items;
      var next := SeqLines(items[1..], indent, tail, style);
      ItemsAfter(items[1..], indent, tail, style);
      ItemAgrees(items[0], indent, next, style);
      SeqLinesOpen(items, indent, tail, style);
      ItemStep(SeqLines(items, indent, tail, style), indent, out, items[0], next);
      assert out + [items[0]] + items[1..] == out + items;
      SeqAgrees(items[1..], indent, out + [items[0]], tail, style);
    }
  }

  lemma {:induction false} ItemAgrees(y: Yaml, indent: nat, tail: O.Lines, style: Style)
    requires Common(y) && Before(tail, indent, true)
    ensures var lines := ToLines(PrintItem(y, indent, style)) + tail;
      lines != [] && lines[0].indent == indent && O.IsItem(lines[0].text)
      && O.Item(lines, indent) == Ok(O.Parsed(y, tail))
    decreases y, 1
  {
    hide ToLine, ToLines, UnderLines, MapLines, Before, O.IsItem, O.MapFrom, O.Block, O.Item, DashLine, KeyLine,
      Common, CommonKey, PrintItem;
    CommonParts(y);
    if IsOnDash(y, style) {
      var e := y.entries[0];
      assert e in y.entries;
      var column := DashColumn(y, indent, style);
      BeforeDeeper(tail, indent, column - 1);
      MapAgrees(y.entries, column, [], tail, style);
      assert [] + y.entries == y.entries;
      var under := MapItemLines(y, indent, tail, style);
      DashedItem(indent, column, e, under, style);
    } else {
      DashLines(y, indent, tail, style);
      UnderAgrees(y, indent, false, tail, style);
      if IsNested(y, style) {
        NestedItem(indent, y, UnderLines(y, indent, false, tail, style), style);
      } else {
        ScalarUnder(y, indent, false, tail, style);
        ScalarItem(indent, y, tail, style);
      }
    }
  }

  lemma BeforeDeeper(tail: O.Lines, indent: nat, column: nat)
    requires Before(tail, indent, true) && indent < column
    ensures Before(tail, column, true)
  {
    hide O.IsItem;
  }

  lemma DashLines(y: Yaml, indent: nat, tail: O.Lines, style: Style)
    requires !IsOnDash(y, style)
    ensures ToLines(PrintItem(y, indent, style)) + tail
         == [ToLine(Spaces(indent) + DashLine(y, style))] + UnderLines(y, indent, false, tail, style)
  {
    hide ToLine, DashLine, PrintUnder;
    var row := Spaces(indent) + DashLine(y, style);
    assert ([row] + PrintUnder(y, indent, false, style))[1..] == PrintUnder(y, indent, false, style);
  }

  lemma NestedItem(indent: nat, y: Yaml, rest: O.Lines, style: Style)
    requires Common(y) && IsNested(y, style) && rest != [] && rest[0].indent > indent
    ensures var lines := [ToLine(Spaces(indent) + DashLine(y, style))] + rest;
      lines[0].indent == indent && O.IsItem(lines[0].text)
      && O.Item(lines, indent) == O.Block(rest, rest[0].indent)
  {
    hide ToLine, O.IsItem, O.Block, O.ItemRest, Common, DashLine;
    DashRowLine(indent, y, style);
    DashRest(y, style);
    var lines := [ToLine(Spaces(indent) + DashLine(y, style))] + rest;
    assert lines[1..] == rest;
  }

  lemma ScalarItem(indent: nat, y: Yaml, rest: O.Lines, style: Style)
    requires Common(y) && !IsNested(y, style)
    ensures var lines := [ToLine(Spaces(indent) + DashLine(y, style))] + rest;
      lines[0].indent == indent && O.IsItem(lines[0].text) && O.Item(lines, indent) == Ok(O.Parsed(y, rest))
  {
    hide ToLine, O.IsItem, O.MatchEntry, O.Scalar, O.ItemRest, Common, DashLine, ScalarText;
    DashRowLine(indent, y, style);
    DashRest(y, style);
    SimpleScalar(y, style);
    SimpleIsNoEntry(ScalarText(y, style));
    ScalarAgrees(y, style);
    var lines := [ToLine(Spaces(indent) + DashLine(y, style))] + rest;
    assert lines[1..] == rest;
  }

  function DashedRow(indent: nat, column: nat, e: Entry, style: Style): string
    requires indent + 2 <= column
  {
    Dashed(indent, column, KeyLine(e.key, e.value, style))
  }

  /** A map on the line of a dash reads as the map at its own column. */
  lemma DashedItem(indent: nat, column: nat, e: Entry, rest: O.Lines, style: Style)
    requires Common(e.value) && CommonKey(e.key) && indent + 2 <= column
    ensures var lines := [ToLine(DashedRow(indent, column, e, style))] + rest;
      lines[0].indent == indent && O.IsItem(lines[0].text)
      && O.Item(lines, indent)
         == O.MapFrom([ToLine(Spaces(column) + KeyLine(e.key, e.value, style))] + rest, column, [])
  {
    hide ToLine, O.IsItem, O.MatchEntry, O.MapFrom, O.Scalar, O.ItemRest, O.WithoutDash, Common, CommonKey, KeyLine;
    DashedRowLine(indent, column, e.key, e.value, style);
    KeyRowLine(column, e.key, e.value, style);
    DashedRest(indent, column, e.key, e.value, style);
    EntryMatched(e.key, e.value, style);
    var lines := [ToLine(DashedRow(indent, column, e, style))] + rest;
    assert lines[1..] == rest;
  }

  /** The lines of a map item and of the same map at its own column. */
  lemma MapItemLines(y: Yaml, indent: nat, tail: O.Lines, style: Style) returns (under: O.Lines)
    requires IsOnDash(y, style)
    ensures var e, column := y.entries[0], DashColumn(y, indent, style);
      ToLines(PrintItem(y, indent, style)) + tail == [ToLine(DashedRow(indent, column, e, style))] + under
      && MapLines(y.entries, column, tail, style) == [ToLine(Spaces(column) + KeyLine(e.key, e.value, style))] + under
  {
    hide ToLine, KeyLine, PrintMap, DashedRow, ToLines;
    var e, column := y.entries[0], DashColumn(y, indent, style);
    var rows := FirstRow(y.entries, column, style);
    DashedItemRows(y, indent, rows, style);
    LinesOpen(DashedRow(indent, column, e, style), rows);
    LinesOpen(Spaces(column) + KeyLine(e.key, e.value, style), rows);
    under := ToLines(rows) + tail;
  }

  lemma LinesOpen(row: string, rows: Rows)
    ensures ToLines([row] + rows) == [ToLine(row)] + ToLines(rows)
  {
    hide ToLine;
    assert ([row] + rows)[1..] == rows;
  }

  lemma DashedItemRows(y: Yaml, indent: nat, rows: Rows, style: Style)
    requires IsOnDash(y, style)
    requires var e, column := y.entries[0], DashColumn(y, indent, style);
      PrintMap(y.entries, column, style) == [Spaces(column) + KeyLine(e.key, e.value, style)] + rows
    ensures PrintItem(y, indent, style) == [DashedRow(indent, DashColumn(y, indent, style), y.entries[0], style)] + rows
  {
    hide KeyLine, PrintMap, Dashed;
    var e, column := y.entries[0], DashColumn(y, indent, style);
    var row := Spaces(column) + KeyLine(e.key, e.value, style);
    assert SliceFrom(row, column) == KeyLine(e.key, e.value, style);
    assert ([row] + rows)[1..] == rows;
  }

  lemma DashRest(y: Yaml, style: Style)
    requires Common(y)
    ensures O.IsItem(DashLine(y, style)) && O.ItemRest(DashLine(y, style)) == (if IsNested(y, style) then "" else ScalarText(y, style))
    ensures !IsNested(y, style) ==> ScalarText(y, style) != ""
  {
    hide ScalarText, Common, IsSpace, Trim;
    if !IsNested(y, style) {
      CommonIsPrintable(y);
      HeadTextIsToken(y, style);
      TokenShape(ScalarText(y, style));
      TrimSpaces(style.gap(y), ScalarText(y, style));
      DashSpace(style.gap(y), ScalarText(y, style));
    }
  }

  lemma DashSpace(n: nat, v: string)
    ensures var text := "-" + (Spaces(n + 1) + v); StartsWith(text, "- ") && text[2..] == Spaces(n) + v
  {
    assert ("-" + (Spaces(n + 1) + v))[..2] == "- ";
  }

  lemma DashedRest(indent: nat, column: nat, key: string, y: Yaml, style: Style)
    requires Common(y) && CommonKey(key) && indent + 2 <= column
    ensures var body := KeyLine(key, y, style);
      var line := O.Line(indent, "-" + (Spaces(column - indent - 1) + body));
      O.IsItem(line.text) && body != "" && O.ItemRest(line.text) == body
      && O.WithoutDash(line) == O.Line(column, body)
  {
    hide KeyLine, Common, CommonKey, Visible, KeyToken;
    CommonIsPrintable(y);
    KeyLineVisible(key, y, style);
    KeyTokenStart(key, style);
    KeyLineStart(key, y, style);
    DashedText(indent, column, KeyLine(key, y, style));
  }

  lemma DashedText(indent: nat, column: nat, body: string)
    requires Visible(body) && body[0] != '-' && indent + 2 <= column
    ensures var line := O.Line(indent, "-" + (Spaces(column - indent - 1) + body));
      O.IsItem(line.text) && O.ItemRest(line.text) == body && O.WithoutDash(line) == O.Line(column, body)
  {
    hide IsSpace, Trim, IndexOf;
    var n := column - indent - 1;
    var text := "-" + (Spaces(n) + body);
    assert text[2..] == Spaces(n - 1) + body && text[n + 1..n + 1 + |body|] == body && text[..2] == "- ";
    TrimSpaces(n - 1, body);
    SpaceVisible();
    FirstAt(text, body, 0, n + 1);
  }

  lemma KeyLineStart(key: string, y: Yaml, style: Style)
    ensures KeyLine(key, y, style) != "" && KeyLine(key, y, style)[0] == KeyToken(key, style)[0]
  {
    hide KeyToken;
    KeyTokenStart(key, style);
  }

  // ------------------------------------------------------------- the readers

  lemma {:induction false} UnderRowLines(y: Yaml, indent: nat, inMap: bool, style: Style)
    requires Common(y)
    ensures forall row :: row in PrintUnder(y, indent, inMap, style) ==> IsLineRow(row)
    decreases y, 0
  {
    hide IsLineRow, Common, IsBlockText;
    CommonIsPrintable(y);
    CommonParts(y);
    if y.Map? {
      MapRowLines(y.entries, Column(y, indent, inMap, style), style);
    } else if y.Seq? {
      SeqRowLines(y.items, Column(y, indent, inMap, style), style);
    }
  }

  lemma {:induction false} MapRowLines(entries: seq<Entry>, indent: nat, style: Style)
    requires CommonEntries(entries)
    ensures forall row :: row in PrintMap(entries, indent, style) ==> IsLineRow(row)
    decreases entries
  {
    hide IsLineRow, Common, CommonKey, KeyLine, PrintUnder, ToLine, O.IsItem;
    if entries == [] {
    } else {
      assert entries[0] in entries;
      KeyRowLine(indent, entries[0].key, entries[0].value, style);
      UnderRowLines(entries[0].value, indent, true, style);
      MapRowLines(entries[1..], indent, style);
    }
  }

  lemma {:induction false} SeqRowLines(items: seq<Yaml>, indent: nat, style: Style)
    requires CommonItems(items)
    ensures forall row :: row in PrintSeq(items, indent, style) ==> IsLineRow(row)
    decreases items
  {
    hide IsLineRow, Common, PrintItem;
    if items == [] {
    } else {
      assert items[0] in items;
      ItemRowLines(items[0], indent, style);
      SeqRowLines(items[1..], indent, style);
    }
  }

  lemma {:induction false} ItemRowLines(y: Yaml, indent: nat, style: Style)
    requires Common(y)
    ensures forall row :: row in PrintItem(y, indent, style) ==> IsLineRow(row)
    decreases y, 1
  {
    hide IsLineRow, Common, CommonKey, PrintMap, PrintUnder, KeyLine, DashLine, ToLine, O.IsItem;
    CommonParts(y);
    if IsOnDash(y, style) {
      var e, column := y.entries[0], DashColumn(y, indent, style);
      assert e in y.entries;
      MapRowLines(y.entries, column, style);
      var under := FirstRow(y.entries, column, style);
      DashedItemRows(y, indent, under, style);
      DashedRowLine(indent, column, e.key, e.value, style);
    } else {
      DashRowLine(indent, y, style);
      UnderRowLines(y, indent, false, style);
    }
  }

  lemma ObservabilityRoundTrip(y: Yaml, style: Style)
    requires IsNested(y, style) && Common(y)
    ensures O.ParseYaml(Unlines(PrintDocument(y, style))) == Ok(y)
  {
    hide IsLineRow, Common, PrintMap, PrintSeq, ToLine, O.Filtered, O.Block, O.MapFrom, O.SequenceFrom, Split, O.IsItem,
      StaysInDocument;
    CommonParts(y);
    CommonIsPrintable(y);
    var rows := PrintDocument(y, style);
    PrintedStays(y, style);
    StaysOnLine(rows);
    SplitUnlines(rows);
    var lines := ToLines(rows);
    assert lines + [] == lines;
    if y.Map? {
      MapRowLines(y.entries, 0, style);
      MapAgrees(y.entries, 0, [], [], style);
      MapFirstLine(y.entries, 0, [], style);
      assert [] + y.entries == y.entries;
      BlockIsMap(lines);
    } else {
      SeqRowLines(y.items, 0, style);
      SeqAgrees(y.items, 0, [], [], style);
      SeqFirstLine(y.items, 0, [], style);
      assert [] + y.items == y.items;
      BlockIsSequence(lines);
    }
    FilteredEnd(rows);
  }

  lemma BlockIsMap(lines: O.Lines)
    requires lines != [] && lines[0].indent == 0 && !O.IsItem(lines[0].text)
    ensures O.Block(lines, 0) == O.MapFrom(lines, 0, [])
  {
  }

  lemma BlockIsSequence(lines: O.Lines)
    requires lines != [] && lines[0].indent == 0 && O.IsItem(lines[0].text)
    ensures O.Block(lines, 0) == O.SequenceFrom(lines, 0, [])
  {
  }

  /** The two readers agree on every tree of the common dialect. */
  lemma ReadersAgree(y: Yaml, style: Style)
    requires IsNested(y, style) && Common(y)
    ensures O.ParseYaml(Unlines(PrintDocument(y, style))) == Ok(y)
    ensures ParseYamlStream(Unlines(PrintDocument(y, style))) == Ok([y])
  {
    hide Common, Printable, PrintDocument, Unlines, ParseYamlStream, O.ParseYaml;
    CommonIsPrintable(y);
    ObservabilityRoundTrip(y, style);
    TextRoundTrip(y, style);
  }
}
