/**
 Comments in both YAML readers: one that follows a printed line, and one on a line
 of its own, changes nothing of what is read.
 */
module YamlComments {
  import opened Text
  import opened YamlScalars
  import opened YamlDocument
  import opened YamlPrinter
  import opened YamlTokens
  import opened YamlRows
  import opened YamlRoundTrip
  import O = ObservabilityYaml
  import A = YamlAgreement

  predicate IsGap(gap: string) {
    gap != "" && forall c :: c in gap ==> IsSpace(c)
  }

  /** White space, then a comment. */
  function Note(gap: string, text: string): string { gap + ("#" + text) }

  // --------------------------------------------------------------- trimming

  lemma GapIsQuiet(gap: string)
    requires IsGap(gap)
    ensures IsQuiet(gap) && EndsInSpace(gap, false) && EndsInSpace(gap, true)
  {
    assert gap[|gap| - 1] in gap;
  }

  lemma {:induction false} GapTrims(t: string, gap: string)
    requires t == "" || !IsSpace(t[|t| - 1])
    requires forall c :: c in gap ==> IsSpace(c)
    ensures TrimEnd(t + gap) == t
  {
    hide IsSpace;
    if gap == "" {
      assert t + gap == t;
    } else {
      assert gap[|gap| - 1] in gap;
      assert (t + gap)[..|t + gap| - 1] == t + gap[..|gap| - 1];
      GapTrims(t, gap[..|gap| - 1]);
    }
  }

  /** What follows a visible character is trimmed after it. */
  lemma {:induction false} TrimAfter(t: string, x: string)
    requires t != "" && !IsSpace(t[|t| - 1])
    ensures TrimEnd(t + x) == t + TrimEnd(x)
  {
    hide IsSpace;
    if x == "" {
      assert t + x == t && t + TrimEnd(x) == t;
    } else if IsSpace(x[|x| - 1]) {
      assert (t + x)[..|t + x| - 1] == t + x[..|x| - 1];
      TrimAfter(t, x[..|x| - 1]);
    }
  }

  lemma NothingTrimmed(t: string)
    requires t != "" && !IsSpace(t[0])
    ensures TrimStart(t) == t
  {
  }

  lemma HashIsVisible()
    ensures !IsSpace('#')
  {
  }

  /** A token and a note, trimmed: the note is cut at its own end only. */
  lemma NotedTrims(t: string, gap: string, text: string)
    requires t != "" && !IsSpace(t[0])
    ensures Trim(t + Note(gap, text)) == t + Note(gap, TrimEnd(text))
  {
    hide IsSpace, TrimStart, TrimEnd;
    HashIsVisible();
    NothingTrimmed(t + Note(gap, text));
    assert t + Note(gap, text) == (t + gap + "#") + text;
    TrimAfter(t + gap + "#", text);
    assert (t + gap + "#") + TrimEnd(text) == t + Note(gap, TrimEnd(text));
  }

  // ------------------------------------------------------ the strict reader

  lemma HashCuts(text: string)
    ensures Uncommented("#" + text, None, true) == ""
  {
    assert ("#" + text)[0] == '#';
  }

  lemma NoteCut(gap: string, text: string, atBreak: bool)
    requires IsGap(gap)
    ensures Uncommented(Note(gap, text), None, atBreak) == gap
  {
    hide Uncommented, IsSpace, IsQuiet, IsGap;
    GapIsQuiet(gap);
    QuietKept(gap, "#" + text, atBreak);
    HashCuts(text);
    assert gap + "" == gap;
  }

  lemma TailThen(y: Yaml, x: string, style: Style)
    requires Printable(y)
    ensures Uncommented(Tail(y, style) + x, None, false) == Tail(y, style) + Uncommented(x, None, false)
  {
    hide Uncommented, ScalarText, Printable, IsToken;
    if IsNested(y, style) {
      assert Tail(y, style) + x == x;
    } else {
      HeadTextIsToken(y, style);
      var t := ScalarText(y, style);
      GapIsSpace(y, style);
      var gap, more := Gap(y, style), Uncommented(x, None, false);
      QuietKept(gap, t + x, false);
      TokenKept(t, x, true);
      assert gap + t + x == gap + (t + x) && gap + (t + more) == gap + t + more;
    }
  }

  lemma KeyLineThen(key: string, y: Yaml, x: string, atBreak: bool, style: Style)
    requires Printable(y)
    ensures Uncommented(KeyLine(key, y, style) + x, None, atBreak) == KeyLine(key, y, style) + Uncommented(x, None, false)
  {
    hide Uncommented, Tail, KeyToken, Printable, IsToken;
    var token, tail, more := KeyToken(key, style), Tail(y, style), Uncommented(x, None, false);
    KeyTokenIsToken(key, style);
    TokenKept(token, ":" + (tail + x), atBreak);
    ColonIsVisible();
    QuietKept(":", tail + x, false);
    TailThen(y, x, style);
    assert token + (":" + tail) + x == token + (":" + (tail + x));
    assert token + (":" + (tail + more)) == token + (":" + tail) + more;
  }

  lemma DashLineThen(y: Yaml, x: string, atBreak: bool, style: Style)
    requires Printable(y)
    ensures Uncommented(DashLine(y, style) + x, None, atBreak) == DashLine(y, style) + Uncommented(x, None, false)
  {
    hide Uncommented, Tail, Printable;
    var tail, more := Tail(y, style), Uncommented(x, None, false);
    ColonIsVisible();
    QuietKept("-", tail + x, atBreak);
    TailThen(y, x, style);
    assert "-" + tail + x == "-" + (tail + x) && "-" + (tail + more) == "-" + tail + more;
  }

  /** A row of visible text with a note has the same text and indentation. */
  lemma NotedInfo(indent: nat, body: string, gap: string, text: string)
    requires Visible(body) && IsGap(gap)
    requires forall b :: Uncommented(body + Note(gap, text), None, b) == body + gap
    ensures var row := Spaces(indent) + body + Note(gap, text);
      HasContent(row) && LineOf(row) == Line(row, indent, body)
  {
    hide Uncommented, IsSpace, TrimStart, TrimEnd;
    var row := Spaces(indent) + body + Note(gap, text);
    assert row == Spaces(indent) + (body + Note(gap, text));
    QuietSpaces(indent);
    QuietKept(Spaces(indent), body + Note(gap, text), true);
    assert StripComment(row) == Spaces(indent) + (body + gap);
    VisibleStart(body);
    SpacesLead(indent, body + Note(gap, text));
    TrimStartSpaces(indent, body + gap);
    GapTrims(body, gap);
  }

  lemma QuietSpaces(n: nat)
    ensures IsQuiet(Spaces(n))
  {
  }

  lemma VisibleStart(body: string)
    requires Visible(body)
    ensures body[0] != ' ' && body[0] != '\t'
  {
  }

  lemma KeyRowNoted(indent: nat, key: string, y: Yaml, gap: string, text: string, style: Style)
    requires Printable(y) && IsGap(gap)
    ensures var row := Spaces(indent) + KeyLine(key, y, style) + Note(gap, text);
      HasContent(row) && LineOf(row) == Line(row, indent, KeyLine(key, y, style))
  {
    hide KeyLine, Printable, IsGap, Uncommented, Visible, Note;
    forall b ensures Uncommented(KeyLine(key, y, style) + Note(gap, text), None, b) == KeyLine(key, y, style) + gap {
      KeyLineThen(key, y, Note(gap, text), b, style);
      NoteCut(gap, text, false);
    }
    KeyLineVisible(key, y, style);
    NotedInfo(indent, KeyLine(key, y, style), gap, text);
  }

  /** The value of a noted row, from its mark on. */
  lemma ValueFoundThen(before: string, from: nat, t: string, x: string)
    requires IsToken(t) && from <= |before|
    requires forall k :: from <= k < |before| ==> before[k] == ':' || before[k] == ' '
    ensures SliceFrom(before + t + x, IndexOf(before + t + x, t, from)) == t + x
  {
    hide IsToken, IndexOf, IsSpace;
    TokenShape(t);
    ColonStays(t);
    var raw := before + t + x;
    assert raw[|before|..|before| + |t|] == t && raw[|before|..] == t + x;
    FirstAt(raw, t, from, |before|);
  }

  /** A token that is not quoted loses its note; a quoted one keeps it. */
  lemma NotedToken(t: string, gap: string, text: string)
    requires IsToken(t) && IsGap(gap)
    ensures Uncommenting(Trim(t + Note(gap, text))) == if IsQuote(t[0]) then t + Note(gap, TrimEnd(text)) else t
  {
    hide IsToken, Uncommented, Trim, IsGap, TrimEnd, Note;
    TokenShape(t);
    NotedTrims(t, gap, text);
    if !IsQuote(t[0]) {
      TokenKept(t, Note(gap, TrimEnd(text)), true);
      NoteCut(gap, TrimEnd(text), false);
      GapAfter(t, gap);
    }
  }

  lemma GapAfter(t: string, gap: string)
    requires t != "" && !IsSpace(t[0]) && !IsSpace(t[|t| - 1]) && IsGap(gap)
    ensures Trim(t + gap) == t
  {
    hide IsSpace;
    NothingTrimmed(t + gap);
    GapTrims(t, gap);
  }

  lemma OnlyNoteAfter(gap: string, text: string)
    requires IsGap(gap)
    ensures NothingAfter(Note(gap, text))
  {
    hide Uncommented, IsSpace, Note;
    NoteCut(gap, text, true);
    SpaceIsBlank(gap);
  }

  lemma QuotedText(t: string)
    requires IsToken(t) && IsQuote(t[0])
    ensures IsDoubleQuoted(t) || IsSingleQuoted(t)
  {
    hide IsBare, IsDoubleQuoted, IsSingleQuoted, AreParts, JoinWith;
    if IsBare(t) {
      A.BareStart(t);
    }
  }

  lemma QuotedOpens(s: string, x: string)
    ensures OneLine(Quoted(s) + x) == match DoubleQuotedFrom(Escape(s) + "\"" + x) case Ok(v) => Ok(Str(v)) case Err(e) => Err(e)
  {
    hide DoubleQuotedFrom, Escape;
    assert (Quoted(s) + x)[1..] == Escape(s) + "\"" + x;
  }

  lemma SingleOpens(s: string, x: string)
    ensures OneLine("'" + (s + "'") + x) == match SingleQuotedFrom(s + "'" + x) case Ok(v) => Ok(Str(v)) case Err(e) => Err(e)
  {
    hide SingleQuotedFrom;
    assert ("'" + (s + "'") + x)[1..] == s + "'" + x;
  }

  lemma DoubleNoted(s: string, gap: string, text: string)
    requires IsGap(gap)
    ensures OneLine(Quoted(s) + Note(gap, text)) == OneLine(Quoted(s))
  {
    hide *;
    OnlyNoteAfter(gap, text);
    NoneAfter();
    EscapeDecodes(s, Note(gap, text));
    EscapeDecodes(s, "");
    QuotedOpens(s, Note(gap, text));
    QuotedOpens(s, "");
    assert Quoted(s) + "" == Quoted(s);
  }

  lemma SingleNoted(s: string, gap: string, text: string)
    requires IsGap(gap) && FitsQuotes(s)
    ensures OneLine("'" + (s + "'") + Note(gap, text)) == OneLine("'" + (s + "'"))
  {
    NothingDoubled(s);
    GapFirst(gap, text);
    hide *;
    OnlyNoteAfter(gap, text);
    NoneAfter();
    DoublingDecodes(s, Note(gap, text));
    DoublingDecodes(s, "");
    SingleOpens(s, Note(gap, text));
    SingleOpens(s, "");
    assert "'" + (s + "'") + "" == "'" + (s + "'");
  }

  lemma GapFirst(gap: string, text: string)
    requires IsGap(gap)
    ensures !StartsWith(Note(gap, text), "'") && !StartsWith("", "'")
  {
    assert Note(gap, text)[0] == if gap == "" then '#' else gap[0];
    assert gap != "" ==> gap[0] in gap;
  }

  /** A quoted token is read the same with a note after it. */
  lemma QuotedNoted(t: string, gap: string, text: string)
    requires IsToken(t) && IsQuote(t[0]) && IsGap(gap)
    ensures OneLine(t + Note(gap, text)) == OneLine(t)
  {
    hide OneLine, Quoted, Note, IsGap, FitsQuotes, IsToken;
    QuotedText(t);
    if IsSingleQuoted(t) {
      var s :| FitsQuotes(s) && t == "'" + (s + "'");
      SingleNoted(s, gap, text);
    } else {
      var s :| t == Quoted(s);
      DoubleNoted(s, gap, text);
    }
  }

  lemma NoneAfter()
    ensures NothingAfter("")
  {
  }

  /** A value whose text is noted is read as without the note, unless it is quoted
      and goes on in further rows. */
  lemma ValueNoted(rest: Rows, t: string, gap: string, text: string, parent: nat, inMap: bool)
    requires IsToken(t) && IsGap(gap) && (IsQuote(t[0]) ==> EndsScalar(rest, parent, false))
    ensures Value(rest, Uncommenting(Trim(t + Note(gap, text))), parent, inMap) == Value(rest, t, parent, inMap)
  {
    hide IsToken, Uncommenting, OneLine, Continuation, EndsScalar, Note, Trim, IsGap;
    TokenShape(t);
    NotedToken(t, gap, text);
    if IsQuote(t[0]) {
      QuotedNoted(t, gap, TrimEnd(text));
      ContinuationStops(rest, parent, false, 0);
      assert [t] + [] == [t];
      var noted := t + Note(gap, TrimEnd(text));
      assert [noted] + [] == [noted];
    }
  }

  /** An entry's line with a comment after it is read as without it. */
  lemma EntryNoted(indent: nat, key: string, y: Yaml, out: seq<Entry>, rest: Rows, gap: string, text: string, style: Style)
    requires Printable(y) && !HasKey(out, key) && IsGap(gap)
    requires HeadText(y, style) != "" && IsQuote(HeadText(y, style)[0]) ==> EndsScalar(rest, indent, false)
    requires Value(rest, HeadText(y, style), indent, true).Ok?
    ensures var row := Spaces(indent) + KeyLine(key, y, style);
      HasContent(row) && HasContent(row + Note(gap, text))
      && MapEntry([row + Note(gap, text)] + rest, indent, out) == MapEntry([row] + rest, indent, out)
  {
    hide Value, HasContent, LineOf, MatchKey, KeyLine, OneLine, HasKey, KeyText, Printable, IndexOf, SliceFrom, Trim,
      Uncommenting, ScalarText, KeyToken, Note, IsGap, EndsScalar, IsToken;
    var row := Spaces(indent) + KeyLine(key, y, style);
    var noted, parsed := row + Note(gap, text), Value(rest, HeadText(y, style), indent, true).value;
    EntryReads(indent, key, y, out, rest, parsed, style);
    KeyRowNoted(indent, key, y, gap, text, style);
    KeyMatched(key, y, style);
    KeyReads(key, style);
    assert ([noted] + rest)[1..] == rest;
    NotedEntryText(indent, key, y, rest, gap, text, style);
  }

  lemma NotedEntryText(indent: nat, key: string, y: Yaml, rest: Rows, gap: string, text: string, style: Style)
    requires Printable(y) && IsGap(gap)
    requires HeadText(y, style) != "" && IsQuote(HeadText(y, style)[0]) ==> EndsScalar(rest, indent, false)
    ensures var row := Spaces(indent) + KeyLine(key, y, style) + Note(gap, text);
      var written := WrittenValue(Line(row, indent, KeyLine(key, y, style)), KeyMatch(KeyToken(key, style), ValueText(y, style)));
      Value(rest, Uncommenting(written), indent, true) == Value(rest, HeadText(y, style), indent, true)
  {
    if IsNested(y, style) {
      hide Value;
      NothingWritten();
    } else {
      var t := ScalarText(y, style);
      var row := Spaces(indent) + KeyLine(key, y, style) + Note(gap, text);
      HeadTextIsToken(y, style);
      NotedWritten(indent, key, y, gap, text, style);
      hide *;
      TokenShape(t);
      ValueNoted(rest, t, gap, text, indent, true);
    }
  }

  lemma NotedWritten(indent: nat, key: string, y: Yaml, gap: string, text: string, style: Style)
    requires Printable(y) && !IsNested(y, style)
    ensures var row := Spaces(indent) + KeyLine(key, y, style) + Note(gap, text);
      WrittenValue(Line(row, indent, KeyLine(key, y, style)), KeyMatch(KeyToken(key, style), Some(ScalarText(y, style))))
      == Trim(ScalarText(y, style) + Note(gap, text))
  {
    hide IndexOf, SliceFrom, Trim, ScalarText, KeyToken, Printable, IsToken, Note, InBrackets;
    var t := ScalarText(y, style);
    HeadTextIsToken(y, style);
    assert KeyLine(key, y, style) == KeyToken(key, style) + (":" + (Gap(y, style) + t));
    NotedAfterKey(Spaces(indent) + KeyLine(key, y, style) + Note(gap, text), Spaces(indent), KeyToken(key, style), Gap(y, style), t,
      Note(gap, text));
  }

  lemma NotedAfterKey(raw: string, lead: string, key: string, gap: string, t: string, x: string)
    requires IsToken(t) && IsBlanks(gap) && raw == lead + (key + (":" + (gap + t))) + x
    ensures Trim(SliceFrom(raw, IndexOf(raw, t, |lead| + |key|))) == Trim(t + x)
  {
    hide *;
    Regroup(lead, key, gap, t);
    ValueFoundThen(lead + (key + (":" + gap)), |lead| + |key|, t, x);
  }

  /** An item's line with a comment after it is read as without it. */
  lemma ItemNoted(indent: nat, y: Yaml, rest: Rows, gap: string, text: string, style: Style)
    requires Printable(y) && IsGap(gap)
    requires HeadText(y, style) != "" && IsQuote(HeadText(y, style)[0]) ==> EndsScalar(rest, indent, false)
    requires Value(rest, HeadText(y, style), indent, false).Ok?
    ensures var row := Spaces(indent) + DashLine(y, style);
      HasContent(row) && IsItem(LineOf(row).text)
      && HasContent(row + Note(gap, text)) && IsItem(LineOf(row + Note(gap, text)).text)
      && Item([row + Note(gap, text)] + rest, indent) == Item([row] + rest, indent)
  {
    hide Value, HasContent, LineOf, OpensMap, IsItem, ItemRest, ItemValue, Uncommenting, Printable, ScalarText,
      MapFrom, WithoutDash, ChildIndent, Note, IsGap, EndsScalar, IsToken, Uncommented, Visible;
    var row, body := Spaces(indent) + DashLine(y, style), DashLine(y, style);
    var noted, parsed := row + Note(gap, text), Value(rest, HeadText(y, style), indent, false).value;
    ItemReads(indent, y, rest, parsed, style);
    forall b ensures Uncommented(body + Note(gap, text), None, b) == body + gap {
      DashLineThen(y, Note(gap, text), b, style);
      NoteCut(gap, text, false);
    }
    DashLineVisible(y, style);
    NotedInfo(indent, body, gap, text);
    assert ([noted] + rest)[1..] == rest;
    if IsNested(y, style) {
      BareDash();
    } else {
      ItemTextIs(indent, y, style);
      HeadTextIsToken(y, style);
      TokenShape(ScalarText(y, style));
      TokenOpensNoMap(ScalarText(y, style));
      NotedItemText(indent, y, gap, text, style);
      ValueNoted(rest, ScalarText(y, style), gap, text, indent, false);
    }
  }

  lemma NotedItemText(indent: nat, y: Yaml, gap: string, text: string, style: Style)
    requires Printable(y) && !IsNested(y, style)
    ensures IsItem(DashLine(y, style))
    ensures var row := Spaces(indent) + DashLine(y, style) + Note(gap, text);
      ItemValue(Line(row, indent, DashLine(y, style))) == Trim(ScalarText(y, style) + Note(gap, text))
  {
    hide ItemValue, DashLine, ScalarText, Printable, IsToken, Note, IsItem, ItemRest, Gap;
    HeadTextIsToken(y, style);
    ItemTextIs(indent, y, style);
    DashLineIs(y, style);
    FoundAfterDash(indent, DashLine(y, style), "-" + Gap(y, style), ScalarText(y, style), Note(gap, text));
  }

  lemma FoundAfterDash(indent: nat, text: string, dash: string, t: string, x: string)
    requires IsToken(t) && text == dash + t && IsItem(text) && ItemRest(text) == t
    requires dash != "" && forall k :: 1 <= k < |dash| ==> dash[k] == ' '
    ensures ItemValue(Line(Spaces(indent) + text + x, indent, text)) == Trim(t + x)
  {
    hide IsToken, IsItem, ItemRest, IndexOf, SliceFrom, Trim, ItemValue;
    ItemValueIs(Line(Spaces(indent) + text + x, indent, text));
    BlanksBefore(indent, dash);
    ValueFoundThen(Spaces(indent) + dash, indent + 1, t, x);
    assert Spaces(indent) + text + x == Spaces(indent) + dash + t + x;
  }

  lemma DashLineIs(y: Yaml, style: Style)
    requires !IsNested(y, style)
    ensures DashLine(y, style) == "-" + Gap(y, style) + ScalarText(y, style)
    ensures forall k :: 1 <= k < |"-" + Gap(y, style)| ==> ("-" + Gap(y, style))[k] == ' '
  {
    hide ScalarText, IsNested;
  }

  lemma BlanksBefore(indent: nat, dash: string)
    requires dash != "" && forall k :: 1 <= k < |dash| ==> dash[k] == ' '
    ensures var before := Spaces(indent) + dash;
      indent + 1 <= |before| && forall k :: indent + 1 <= k < |before| ==> before[k] == ' '
  {
    var before := Spaces(indent) + dash;
    assert forall k :: indent + 1 <= k < |before| ==> before[k] == dash[k - indent];
  }

  lemma ItemValueIs(line: Line)
    requires IsItem(line.text)
    ensures ItemValue(line) == Trim(SliceFrom(line.raw, IndexOf(line.raw, ItemRest(line.text), line.indent + 1)))
  {
    hide Trim, SliceFrom, IndexOf, ItemRest, IsItem;
  }

  /** A line that holds a comment alone is skipped. */
  lemma CommentSkipped(lead: string, text: string, rest: Rows)
    requires forall c :: c in lead ==> IsSpace(c)
    ensures Skip([lead + ("#" + text)] + rest) == Skip(rest)
  {
    hide Uncommented, IsSpace, Info;
    var row := lead + ("#" + text);
    if lead == "" {
      HashCuts(text);
      assert row == "#" + text;
    } else {
      NoteCut(lead, text, true);
    }
    SpaceIsBlank(lead);
    BlankTrims(lead);
    CommentInfo(row, lead);
    SkipStep([row] + rest);
    assert ([row] + rest)[1..] == rest;
  }

  lemma BlankTrims(lead: string)
    requires IsBlank(lead)
    ensures Trim(lead) == "" && Trim("") == ""
  {
  }

  lemma CommentInfo(row: string, lead: string)
    requires Trim(StripComment(row)) == ""
    ensures Info(row).Ok? && Info(row).value.text == ""
  {
    hide Uncommented, Trim;
  }

  // --------------------------------------------------- the smaller reader

  lemma HashStays(text: string)
    ensures O.Kept("#" + text, None, true) == ""
  {
    assert ("#" + text)[0] == '#';
  }

  lemma NoteDropped(gap: string, text: string, atBreak: bool)
    requires IsGap(gap)
    ensures O.Kept(Note(gap, text), None, atBreak) == gap
  {
    hide O.Kept, IsSpace, IsQuiet, IsGap;
    GapIsQuiet(gap);
    A.QuietStays(gap, "#" + text, atBreak);
    HashStays(text);
    assert gap + "" == gap;
  }

  /** A row whose end is outside quotes. */
  ghost predicate IsSettled(row: string) {
    forall x :: O.Kept(row + x, None, true) == row + O.Kept(x, None, false)
  }

  /** A comment after a row is dropped with the white space before it. */
  lemma NotedLine(row: string, gap: string, text: string, rest: Rows)
    requires IsSettled(row) && IsGap(gap) && row != "" && !IsSpace(row[|row| - 1])
    ensures O.Filtered([row + Note(gap, text)] + rest) == O.Filtered([row] + rest)
  {
    hide O.Kept, IsSpace, TrimEnd, O.Leading, Trim, IsGap, Note;
    NoteDropped(gap, text, false);
    GapDropped(row, gap);
    assert O.Kept(row + "", None, true) == row + O.Kept("", None, false);
    A.NothingStays(false);
    assert row + "" == row;
    assert ([row + Note(gap, text)] + rest)[1..] == rest && ([row] + rest)[1..] == rest;
  }

  lemma GapDropped(row: string, gap: string)
    requires row != "" && !IsSpace(row[|row| - 1]) && IsGap(gap)
    ensures TrimEnd(row + gap) == TrimEnd(row)
  {
    hide IsSpace;
    GapTrims(row, gap);
    GapTrims(row, "");
    assert row + "" == row;
  }

  /** A line that holds a comment alone is dropped. */
  lemma CommentDropped(lead: string, text: string, rest: Rows)
    requires forall c :: c in lead ==> IsSpace(c)
    ensures O.Filtered([lead + ("#" + text)] + rest) == O.Filtered(rest)
  {
    hide O.Kept, IsSpace, TrimStart, O.Leading;
    var row := lead + ("#" + text);
    if lead == "" {
      HashStays(text);
      assert row == "#" + text;
    } else {
      NoteDropped(lead, text, true);
    }
    GapTrims("", lead);
    assert "" + lead == lead;
    assert ([row] + rest)[1..] == rest;
    TrimNothing();
  }

  lemma TrimNothing()
    ensures Trim("") == "" && TrimEnd("") == ""
  {
  }

  /** The printed rows of the common dialect are such rows. */
  lemma PrintedSettled(indent: nat, key: string, y: Yaml, style: Style)
    requires A.Common(y) && A.CommonKey(key)
    ensures IsSettled(Spaces(indent) + KeyLine(key, y, style)) && IsSettled(Spaces(indent) + DashLine(y, style))
  {
    hide O.Kept, KeyLine, DashLine, A.Common, A.CommonKey;
    forall x ensures O.Kept(Spaces(indent) + KeyLine(key, y, style) + x, None, true)
                  == Spaces(indent) + KeyLine(key, y, style) + O.Kept(x, None, false) {
      SimpleKeyLineThen(key, y, x, EndsInSpace(Spaces(indent), true), style);
      LeadStays(indent, KeyLine(key, y, style), x);
    }
    forall x ensures O.Kept(Spaces(indent) + DashLine(y, style) + x, None, true)
                  == Spaces(indent) + DashLine(y, style) + O.Kept(x, None, false) {
      SimpleDashLineThen(y, x, EndsInSpace(Spaces(indent), true), style);
      LeadStays(indent, DashLine(y, style), x);
    }
  }

  lemma LeadStays(indent: nat, body: string, x: string)
    requires O.Kept(body + x, None, EndsInSpace(Spaces(indent), true)) == body + O.Kept(x, None, false)
    ensures O.Kept(Spaces(indent) + body + x, None, true) == Spaces(indent) + body + O.Kept(x, None, false)
  {
    hide O.Kept, IsSpace;
    QuietSpaces(indent);
    A.QuietStays(Spaces(indent), body + x, true);
    assert Spaces(indent) + body + x == Spaces(indent) + (body + x);
    assert Spaces(indent) + (body + O.Kept(x, None, false)) == Spaces(indent) + body + O.Kept(x, None, false);
  }

  lemma SimpleTailThen(y: Yaml, x: string, style: Style)
    requires A.Common(y)
    ensures O.Kept(Tail(y, style) + x, None, false) == Tail(y, style) + O.Kept(x, None, false)
  {
    hide O.Kept, ScalarText, A.Common, A.IsSimpleToken;
    if IsNested(y, style) {
      assert Tail(y, style) + x == x;
    } else {
      A.SimpleScalar(y, style);
      var t := ScalarText(y, style);
      GapIsSpace(y, style);
      var gap, more := Gap(y, style), O.Kept(x, None, false);
      A.QuietStays(gap, t + x, false);
      A.TokenStays(t, x, true);
      assert gap + t + x == gap + (t + x) && gap + (t + more) == gap + t + more;
    }
  }

  lemma SimpleKeyLineThen(key: string, y: Yaml, x: string, atBreak: bool, style: Style)
    requires A.Common(y) && A.CommonKey(key)
    ensures O.Kept(KeyLine(key, y, style) + x, None, atBreak) == KeyLine(key, y, style) + O.Kept(x, None, false)
  {
    hide O.Kept, Tail, KeyToken, A.Common, A.CommonKey, A.IsSimpleScalar;
    var token, tail, more := KeyToken(key, style), Tail(y, style), O.Kept(x, None, false);
    A.SimpleKeyToken(key, style);
    A.ScalarStays(token, ":" + (tail + x), atBreak);
    ColonIsVisible();
    A.QuietStays(":", tail + x, false);
    SimpleTailThen(y, x, style);
    assert token + (":" + tail) + x == token + (":" + (tail + x));
    assert token + (":" + (tail + more)) == token + (":" + tail) + more;
  }

  lemma SimpleDashLineThen(y: Yaml, x: string, atBreak: bool, style: Style)
    requires A.Common(y)
    ensures O.Kept(DashLine(y, style) + x, None, atBreak) == DashLine(y, style) + O.Kept(x, None, false)
  {
    hide O.Kept, Tail, A.Common;
    var tail, more := Tail(y, style), O.Kept(x, None, false);
    ColonIsVisible();
    A.QuietStays("-", tail + x, atBreak);
    SimpleTailThen(y, x, style);
    assert "-" + tail + x == "-" + (tail + x) && "-" + (tail + more) == "-" + tail + more;
  }
}
