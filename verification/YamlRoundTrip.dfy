/**
 Printing a tree and reading its rows gives the tree back
 (scripts/check-kubernetes.mjs), literal blocks included, and a stream of
 documents is read document by document.
 */
module YamlRoundTrip {
  import opened Text
  import opened YamlScalars
  import opened YamlDocument
  import opened YamlPrinter
  import opened YamlTokens
  import opened YamlRows

  // --------------------------------------------------------- blank rows, ends

  lemma {:induction false} BlankIsSpace(s: string)
    requires IsBlank(s)
    ensures forall k :: 0 <= k < |s| ==> IsSpace(s[k])
  {
    hide IsSpace;
    if s != "" && IsSpace(s[0]) {
      BlankIsSpace(s[1..]);
      assert forall k :: 0 < k < |s| ==> s[k] == s[1..][k - 1];
    } else if s != "" {
      TrimEndKeepsStart(s);
    }
  }

  lemma TrimEndKeepsStart(s: string)
    requires s != "" && !IsSpace(s[0])
    ensures TrimEnd(s) != ""
  {
    if |s| <= 1 || !IsSpace(s[|s| - 1]) {
    } else {
      TrimEndKeepsStart(s[..|s| - 1]);
    }
  }

  lemma {:induction false} SpaceIsBlank(s: string)
    requires forall k :: 0 <= k < |s| ==> IsSpace(s[k])
    ensures IsBlank(s)
  {
    hide IsSpace;
    if s == "" {
    } else {
      SpaceIsBlank(s[1..]);
    }
  }

  lemma BlankInfo(row: string)
    requires IsBlank(row)
    ensures Info(row) == Ok(Line(row, LeadingSpaces(row), ""))
  {
    hide IsSpace, Uncommented, LeadingSpaces, Trim;
    BlankIsSpace(row);
    BlankIsQuiet(row);
    QuietKept(row, "", true);
    assert row + "" == row;
    NothingUncommented(EndsInSpace(row, true));
  }

  lemma BlankIsQuiet(row: string)
    requires forall k :: 0 <= k < |row| ==> IsSpace(row[k])
    ensures IsQuiet(row)
  {
    forall c | c in row ensures !IsQuote(c) && c != '#' {
      var k :| 0 <= k < |row| && row[k] == c;
      assert IsSpace(row[k]);
    }
  }

  /** The first row that is not blank has content at most at `indent`; at
      `indent` itself it may be an item only if `items`. */
  predicate Ends(rows: Rows, indent: int, items: bool) {
    rows == [] ||
    if IsBlank(rows[0]) then Ends(rows[1..], indent, items)
    else
      HasContent(rows[0])
      && (LineOf(rows[0]).indent < indent
          || (LineOf(rows[0]).indent == indent && (IsItem(LineOf(rows[0]).text) ==> items)))
  }

  lemma {:induction false} SkipEnds(rows: Rows, indent: int, items: bool)
    requires Ends(rows, indent, items)
    ensures Skip(rows).Ok?
    ensures var after := Skip(rows).value;
      after == [] || LineOf(after[0]).indent < indent
      || (LineOf(after[0]).indent == indent && (IsItem(LineOf(after[0]).text) ==> items))
  {
    hide Info, IsBlank, IsItem, HasContent, LineOf;
    if rows == [] {
    } else {
      SkipStep(rows);
      if IsBlank(rows[0]) {
        BlankInfo(rows[0]);
        SkipEnds(rows[1..], indent, items);
      } else {
        SkipContent(rows);
      }
    }
  }

  lemma SkipContent(rows: Rows)
    requires rows != [] && HasContent(rows[0])
    ensures Skip(rows) == Ok(rows)
  {
    hide Info;
  }

  lemma ContentIsNotBlank(row: string)
    requires HasContent(row)
    ensures !IsBlank(row)
  {
    hide IsBlank;
    if IsBlank(row) {
      BlankInfo(row);
    }
  }

  lemma {:induction false} EndsWeaken(rows: Rows, indent: int, items: bool, deeper: int, more: bool)
    requires Ends(rows, indent, items) && (indent < deeper || (indent == deeper && (items ==> more)))
    ensures Ends(rows, deeper, more)
  {
    hide Info, IsBlank, IsItem, HasContent, LineOf;
    if rows == [] || !IsBlank(rows[0]) {
    } else {
      EndsWeaken(rows[1..], indent, items, deeper, more);
    }
  }

  /** The first row that is not blank ends a flow scalar: it stands at or left of
      the parent, or it is a comment after a plain scalar. */
  predicate EndsScalar(rows: Rows, parent: nat, isPlain: bool) {
    rows == [] ||
    if IsBlank(rows[0]) then EndsScalar(rows[1..], parent, isPlain)
    else LeadingSpaces(rows[0]) <= parent || (isPlain && Trim(StripComment(rows[0])) == "")
  }

  /** A scalar does not go on exactly where its rows end. */
  lemma {:induction false} ContinuationStops(rows: Rows, parent: nat, isPlain: bool, pending: nat)
    ensures Continuation(rows, parent, isPlain, pending) == [] <==> EndsScalar(rows, parent, isPlain)
  {
    hide IsBlank, IsItem, StripComment, Trim, LeadingSpaces, Continuation;
    ContinuationStep(rows, parent, isPlain, pending);
    if rows == [] {
    } else if IsBlank(rows[0]) {
      ContinuationStops(rows[1..], parent, isPlain, pending + 1);
    }
  }

  lemma {:induction false} EndsScalarHere(rows: Rows, parent: nat, isPlain: bool)
    requires Ends(rows, parent, true)
    ensures EndsScalar(rows, parent, isPlain)
  {
    hide IsBlank, IsItem, StripComment, Trim, LeadingSpaces;
    if rows == [] {
    } else if IsBlank(rows[0]) {
      EndsScalarHere(rows[1..], parent, isPlain);
    }
  }

  // ------------------------------------------------------------ literal blocks

  lemma SpacesBlank(n: nat, line: string)
    ensures IsBlank(Spaces(n) + line) == IsBlank(line)
  {
    hide IsBlank, IsSpace;
    var row := Spaces(n) + line;
    SpaceIsSpace();
    if IsBlank(line) {
      BlankIsSpace(line);
      SpaceIsBlank(row);
    }
    if IsBlank(row) {
      BlankIsSpace(row);
      assert forall k :: 0 <= k < |line| ==> line[k] == row[n + k];
      SpaceIsBlank(line);
    }
  }

  lemma SpaceIsSpace()
    ensures IsSpace(' ')
  {
  }

  lemma BlockRowIs(line: string, indent: nat)
    requires indent > 0
    ensures var row := BlockRow(line, indent);
      IsBlank(row) == IsBlank(line) && SliceFrom(row, indent) == line
      && (line != "" ==> LeadingSpaces(row) >= indent && row[indent..] == line)
      && (line != "" && line[0] != ' ' ==> LeadingSpaces(row) == indent)
  {
    hide IsBlank;
    if line != "" {
      var row := Spaces(indent) + line;
      SpacesBlank(indent, line);
      LeadingAtLeast(row, indent);
      if line[0] != ' ' {
        SpacesLead(indent, line);
      }
    }
  }

  lemma BlockRowReads(line: string, indent: nat, parent: nat, rest: Rows)
    requires indent > 0
    ensures var row := BlockRow(line, indent);
      BlockLines([row] + rest, parent, Some(indent)) == [line] + BlockLines(rest, parent, Some(indent))
  {
    hide BlockLines, IsBlank, LeadingSpaces, SliceFrom;
    var row := BlockRow(line, indent);
    BlockRowIs(line, indent);
    EmptyIsBlank();
    BlockLinesStep([row] + rest, parent, Some(indent));
    assert ([row] + rest)[1..] == rest;
  }

  lemma BlockRowsOpen(lines: seq<string>, indent: nat, tail: Rows)
    requires lines != []
    ensures BlockRows(lines, indent) + tail == [BlockRow(lines[0], indent)] + (BlockRows(lines[1..], indent) + tail)
  {
    hide BlockRow;
  }

  lemma {:induction false} BlockRowsRead(lines: seq<string>, indent: nat, parent: nat, tail: Rows)
    requires indent > 0
    ensures BlockLines(BlockRows(lines, indent) + tail, parent, Some(indent))
         == lines + BlockLines(tail, parent, Some(indent))
  {
    hide BlockLines, BlockRow;
    var more := BlockLines(tail, parent, Some(indent));
    if lines == [] {
      assert BlockRows(lines, indent) + tail == tail && lines + more == more;
    } else {
      hide BlockRows;
      BlockRowsOpen(lines, indent, tail);
      BlockRowReads(lines[0], indent, parent, BlockRows(lines[1..], indent) + tail);
      BlockRowsRead(lines[1..], indent, parent, tail);
      assert [lines[0]] + (lines[1..] + more) == lines + more;
    }
  }

  lemma EmptyIsBlank()
    ensures IsBlank("")
  {
  }

  /** A row before the indentation is fixed: an empty line, or the line that
      fixes it. */
  lemma BlockStartRow(line: string, indent: nat, parent: nat, rest: Rows)
    requires indent > parent && (line == "" || (line[0] != ' ' && !IsBlank(line)))
    ensures var rows := [BlockRow(line, indent)] + rest;
      BlockLines(rows, parent, None)
      == if line == "" then [""] + BlockLines(rest, parent, None) else BlockLines(rows, parent, Some(indent))
  {
    hide BlockLines, IsBlank, LeadingSpaces, SliceFrom, BlockRow;
    var rows := [BlockRow(line, indent)] + rest;
    BlockRowIs(line, indent);
    EmptyIsBlank();
    BlockLinesStep(rows, parent, None);
    BlockLinesStep(rows, parent, Some(indent));
    assert rows[1..] == rest;
  }

  /** The block's first line that is not blank fixes its indentation. */
  lemma {:induction false} BlockStartReads(lines: seq<string>, indent: nat, parent: nat, tail: Rows)
    requires BlockStart(lines) && indent > parent
    ensures BlockLines(BlockRows(lines, indent) + tail, parent, None)
         == lines + BlockLines(tail, parent, Some(indent))
  {
    hide BlockLines, BlockRows, BlockRow, IsBlank;
    EmptyIsBlank();
    BlockRowsOpen(lines, indent, tail);
    if IsBlank(lines[0]) {
      BlockStartRow(lines[0], indent, parent, BlockRows(lines[1..], indent) + tail);
      BlockStartReads(lines[1..], indent, parent, tail);
      var more := BlockLines(tail, parent, Some(indent));
      assert [lines[0]] + (lines[1..] + more) == lines + more;
    } else {
      TextIsNotEmpty(lines[0]);
      BlockStartRow(lines[0], indent, parent, BlockRows(lines[1..], indent) + tail);
      BlockRowsRead(lines, indent, parent, tail);
    }
  }

  lemma TextIsNotEmpty(line: string)
    requires !IsBlank(line)
    ensures line != ""
  {
  }

  /** The number of blank rows at the start. */
  function BlankRun(rows: Rows): nat {
    if rows != [] && IsBlank(rows[0]) then 1 + BlankRun(rows[1..]) else 0
  }

  /** The first row that is not blank stands left of a block's indentation. */
  predicate EndsBlock(rows: Rows, indent: nat) {
    rows == [] || if IsBlank(rows[0]) then EndsBlock(rows[1..], indent) else LeadingSpaces(rows[0]) < indent
  }

  lemma {:induction false} EndsBlockHere(rows: Rows, parent: nat, indent: nat)
    requires Ends(rows, parent, true) && parent < indent
    ensures EndsBlock(rows, indent)
  {
    hide IsBlank, IsItem, LeadingSpaces;
    if rows == [] {
    } else if IsBlank(rows[0]) {
      EndsBlockHere(rows[1..], parent, indent);
    }
  }

  lemma {:induction false} BlockStops(tail: Rows, indent: nat, parent: nat)
    requires EndsBlock(tail, indent)
    ensures var lines := BlockLines(tail, parent, Some(indent));
      |lines| == BlankRun(tail) && forall k :: 0 <= k < |lines| ==> IsBlank(lines[k])
  {
    hide BlockLines, IsBlank, LeadingSpaces, SliceFrom, IsItem;
    BlockLinesStep(tail, parent, Some(indent));
    if tail == [] || !IsBlank(tail[0]) {
    } else {
      BlockStops(tail[1..], indent, parent);
      SliceIsBlank(tail[0], indent);
    }
  }

  lemma SliceIsBlank(row: string, k: nat)
    requires IsBlank(row)
    ensures IsBlank(SliceFrom(row, k))
  {
    hide IsBlank, IsSpace;
    BlankIsSpace(row);
    SpaceIsBlank(SliceFrom(row, k));
  }

  lemma {:induction false} KeptIs(lines: seq<string>, blanks: seq<string>)
    requires lines != [] && !IsBlank(lines[|lines| - 1])
    requires forall k :: 0 <= k < |blanks| ==> IsBlank(blanks[k])
    ensures KeptLines(lines + blanks) == |lines|
  {
    hide IsBlank;
    KeptLinesStep(lines + blanks);
    if blanks == [] {
      assert lines + blanks == lines;
    } else {
      assert (lines + blanks)[..|lines + blanks| - 1] == lines + blanks[..|blanks| - 1];
      KeptIs(lines, blanks[..|blanks| - 1]);
    }
  }

  predicate IsChomping(chomp: string) { chomp == "" || chomp == "-" || chomp == "+" }

  lemma LiteralHeader(chomp: string)
    requires IsChomping(chomp)
    ensures ParseHeader(Trim(StripComment("|" + chomp))) == Some(Header(false, 0, chomp))
  {
    hide StripComment, Trim;
    TokenUncommented("|" + chomp);
    TrimToken("|" + chomp);
  }

  /** A literal block printed at any indentation below its parent is read back
      whole, and the cursor is left on the first row after it, whatever row left of
      the block that is. Only `|+` sees the blank rows that follow. */
  lemma LiteralBlockReads(lines: seq<string>, indent: nat, parent: nat, chomp: string, tail: Rows)
    requires FitsBlock(lines) && indent > parent && IsChomping(chomp) && EndsBlock(tail, indent)
    ensures BlockScalar(BlockRows(lines, indent) + tail, "|" + chomp, parent)
         == Ok(Parsed(Str(Chomped(Join(lines), false, BlankRun(tail), chomp)), tail))
  {
    hide ParseHeader, StripComment, Trim, BlockLines, KeptLines, IsBlank, Chomped, Join, BlockStart, EndsBlock, IsChomping;
    LiteralHeader(chomp);
    BlockStartReads(lines, indent, parent, tail);
    var blanks := BlockLines(tail, parent, Some(indent));
    BlockStops(tail, indent, parent);
    KeptIs(lines, blanks);
    assert (lines + blanks)[..|lines|] == lines;
    assert (BlockRows(lines, indent) + tail)[|lines|..] == tail;
  }

  lemma JoinEmptyLine(rest: seq<string>)
    requires |rest| > 0
    ensures Join([""] + rest) == "\n" + Join(rest)
  {
    assert ([""] + rest)[1..] == rest;
  }

  lemma JoinMore(rows: seq<string>)
    requires |rows| > 1
    ensures Join(rows) == rows[0] + ("\n" + Join(rows[1..]))
  {
  }

  lemma JoinOne(row: string)
    ensures Join([row]) == row
  {
  }

  lemma JoinLongerLine(c: char, rest: seq<string>)
    requires |rest| > 0
    ensures Join([[c] + rest[0]] + rest[1..]) == [c] + Join(rest)
  {
    hide Join;
    var rows := [[c] + rest[0]] + rest[1..];
    if |rest| == 1 {
      JoinOne(rest[0]);
      JoinOne([c] + rest[0]);
      assert rest == [rest[0]] && rows == [[c] + rest[0]];
    } else {
      JoinMore(rest);
      JoinMore(rows);
      assert rows[1..] == rest[1..];
      Associates([c], rest[0], "\n" + Join(rest[1..]));
    }
  }

  lemma Associates(a: string, b: string, c: string)
    ensures a + b + c == a + (b + c)
  {
  }

  lemma {:induction false} JoinSplit(s: string)
    ensures Join(Split(s)) == s
  {
    hide Join;
    if s == "" {
      JoinOne("");
    } else {
      JoinSplit(s[1..]);
      JoinEmptyLine(Split(s[1..]));
      JoinLongerLine(s[0], Split(s[1..]));
      assert s == [s[0]] + s[1..];
    }
  }

  lemma BlockTextReads(s: string, indent: nat, parent: nat, tail: Rows)
    requires IsBlockText(s) && indent > parent && EndsBlock(tail, indent)
    ensures BlockScalar(BlockRows(BlockBody(s), indent) + tail, BlockHeader(s), parent) == Ok(Parsed(Str(s), tail))
  {
    hide BlockScalar, Split, Join, FitsBlock, BlockRows, EndsBlock;
    if s[|s| - 1] == '\n' {
      LiteralBlockReads(BlockBody(s), indent, parent, "", tail);
      assert "|" + "" == "|";
      JoinSplit(s[..|s| - 1]);
      assert s[..|s| - 1] + "\n" == s;
    } else {
      LiteralBlockReads(BlockBody(s), indent, parent, "-", tail);
      assert "|" + "-" == "|-";
      JoinSplit(s);
    }
  }

  // --------------------------------------------------------------- the tree

  /** What a printed value leaves behind, up to blank rows. */
  lemma ScalarRoundTrip(y: Yaml, indent: nat, inMap: bool, tail: Rows, style: Style)
    requires Printable(y) && !IsNested(y, style) && Ends(tail, indent, true)
    ensures Value(PrintUnder(y, indent, inMap, style) + tail, HeadText(y, style), indent, inMap) == Ok(Parsed(y, tail))
  {
    hide Ends, Printable, IsBlockText, BlockScalar, BlockRows, BlockBody, OneLine, IsBare, IsToken, PrintMap, PrintSeq;
    if IsBlock(y) {
      HeaderStarts(y.s);
      EndsBlockHere(tail, indent, Column(y, indent, inMap, style));
      BlockTextReads(y.s, Column(y, indent, inMap, style), indent, tail);
    } else {
      hide ScalarText;
      ScalarReads(y, style);
      HeadTextIsToken(y, style);
      TokenShape(ScalarText(y, style));
      NothingUnder(y, indent, inMap, style);
      assert [] + tail == tail;
      EndsScalarHere(tail, indent, !IsQuote(ScalarText(y, style)[0]));
      ContinuationStops(tail, indent, !IsQuote(ScalarText(y, style)[0]), 0);
      assert [ScalarText(y, style)] + [] == [ScalarText(y, style)];
    }
  }

  lemma HeaderStarts(s: string)
    ensures BlockHeader(s) != "" && BlockHeader(s)[0] == '|'
  {
  }

  lemma NothingUnder(y: Yaml, indent: nat, inMap: bool, style: Style)
    requires !IsNested(y, style) && !IsBlock(y)
    ensures PrintUnder(y, indent, inMap, style) == []
  {
    hide IsBlockText;
  }

  lemma MapStart(entries: seq<Entry>, indent: nat, style: Style)
    requires entries != [] && Printable(entries[0].value)
    ensures var row := PrintMap(entries, indent, style)[0];
      HasContent(row) && LineOf(row).indent == indent && !IsItem(LineOf(row).text)
  {
    hide HasContent, LineOf, IsItem, KeyLine, Printable, PrintUnder;
    KeyRow(indent, entries[0].key, entries[0].value, style);
  }

  lemma SeqStart(items: seq<Yaml>, indent: nat, style: Style)
    requires items != [] && Printable(items[0])
    ensures var row := PrintSeq(items, indent, style)[0];
      HasContent(row) && LineOf(row).indent == indent && IsItem(LineOf(row).text)
  {
    hide HasContent, LineOf, IsItem, KeyLine, DashLine, PrintUnder;
    var y := items[0];
    if IsOnDash(y, style) {
      assert y.entries[0] in y.entries;
      hide Printable;
      var column := DashColumn(y, indent, style);
      var rows := PrintMap(y.entries, column, style);
      DashedMapReads(indent, column, y.entries[0].key, y.entries[0].value, rows[1..], style);
      assert rows == [rows[0]] + rows[1..];
    } else {
      hide Printable;
      DashRow(indent, y, style);
    }
  }

  /** The rows of an entry's or item's successors end it. */
  lemma MapEnds(entries: seq<Entry>, indent: nat, tail: Rows, style: Style)
    requires forall entry :: entry in entries ==> Printable(entry.value)
    requires Ends(tail, indent - 1, true)
    ensures Ends(PrintMap(entries, indent, style) + tail, indent, false)
  {
    hide Printable, HasContent, LineOf, IsItem, IsBlank, PrintMap;
    if entries == [] {
      EmptyMap(indent, style);
      assert [] + tail == tail;
      EndsWeaken(tail, indent - 1, true, indent, false);
    } else {
      MapStart(entries, indent, style);
      ContentIsNotBlank(PrintMap(entries, indent, style)[0]);
    }
  }

  lemma EmptyMap(indent: nat, style: Style)
    ensures PrintMap([], indent, style) == [] && PrintSeq([], indent, style) == []
  {
  }

  lemma SeqEnds(items: seq<Yaml>, indent: nat, tail: Rows, style: Style)
    requires forall item :: item in items ==> Printable(item)
    requires Ends(tail, indent, false)
    ensures Ends(PrintSeq(items, indent, style) + tail, indent, true)
  {
    hide Printable, HasContent, LineOf, IsItem, IsBlank, PrintSeq;
    if items == [] {
      EmptyMap(indent, style);
      assert [] + tail == tail;
      EndsWeaken(tail, indent, false, indent, true);
    } else {
      SeqStart(items, indent, style);
      ContentIsNotBlank(PrintSeq(items, indent, style)[0]);
    }
  }

  /** A map's reading depends on its rows only from the next content on. */
  lemma MapFromSkip(rows: Rows, other: Rows, indent: nat, out: seq<Entry>)
    requires Skip(rows) == Skip(other)
    ensures MapFrom(rows, indent, out) == MapFrom(other, indent, out)
  {
    hide Skip, MapFrom, MapEntry, HasContent, LineOf, IsItem;
    MapStep(rows, indent, out);
    MapStep(other, indent, out);
  }

  lemma SequenceFromSkip(rows: Rows, other: Rows, indent: nat, out: seq<Yaml>)
    requires Skip(rows) == Skip(other)
    ensures SequenceFrom(rows, indent, out) == SequenceFrom(other, indent, out)
  {
    hide Skip, SequenceFrom, Item, HasContent, LineOf, IsItem;
    SequenceStep(rows, indent, out);
    SequenceStep(other, indent, out);
  }

  /** An empty value with a deeper block below it is that block. */
  lemma DeeperValue(rows: Rows, indent: nat, inMap: bool)
    requires rows != [] && HasContent(rows[0]) && LineOf(rows[0]).indent > indent
    ensures Value(rows, "", indent, inMap)
         == if IsItem(LineOf(rows[0]).text) then SequenceFrom(rows, LineOf(rows[0]).indent, [])
            else MapFrom(rows, LineOf(rows[0]).indent, [])
  {
    hide HasContent, LineOf, IsItem, Skip, MapFrom, SequenceFrom;
    SkipContent(rows);
  }

  /** A key's sequence may stand at the key's own column. */
  lemma SameColumnValue(rows: Rows, indent: nat)
    requires rows != [] && HasContent(rows[0]) && LineOf(rows[0]).indent == indent && IsItem(LineOf(rows[0]).text)
    ensures Value(rows, "", indent, true) == SequenceFrom(rows, indent, [])
  {
    hide HasContent, LineOf, IsItem, Skip, Node, SequenceFrom;
    SkipContent(rows);
  }

  /** What is left after a value stands at the same next content as `tail`. */
  lemma {:induction false} ValueRoundTrip(y: Yaml, indent: nat, inMap: bool, tail: Rows, style: Style) returns (rest: Rows)
    requires Printable(y) && Ends(tail, indent, !inMap)
    ensures Value(PrintUnder(y, indent, inMap, style) + tail, HeadText(y, style), indent, inMap) == Ok(Parsed(y, rest))
    ensures Skip(rest) == Skip(tail)
    decreases y, 0
  {
    hide Ends, HasContent, LineOf, IsItem, Skip, PrintMap, PrintSeq, IsBlockText, MapFrom, SequenceFrom, Value;
    SkipIsIdempotent(tail);
    if !IsNested(y, style) {
      hide Printable, PrintUnder;
      EndsWeaken(tail, indent, !inMap, indent, true);
      ScalarRoundTrip(y, indent, inMap, tail, style);
      return tail;
    }
    SkipEnds(tail, indent, !inMap);
    rest := Skip(tail).value;
    var column := Column(y, indent, inMap, style);
    if y.Map? {
      EndsWeaken(tail, indent, !inMap, column - 1, true);
      MapRoundTrip(y.entries, column, [], tail, style);
      MapStart(y.entries, column, style);
      DeeperValue(PrintMap(y.entries, column, style) + tail, indent, inMap);
      assert [] + y.entries == y.entries;
    } else {
      EndsWeaken(tail, indent, !inMap, column, false);
      SeqRoundTrip(y.items, column, [], tail, style);
      SeqStart(y.items, column, style);
      if column == indent {
        SameColumnValue(PrintSeq(y.items, column, style) + tail, indent);
      } else {
        DeeperValue(PrintSeq(y.items, column, style) + tail, indent, inMap);
      }
      assert [] + y.items == y.items;
    }
  }

  lemma {:induction false} MapRoundTrip(entries: seq<Entry>, indent: nat, out: seq<Entry>, tail: Rows, style: Style)
    requires forall entry :: entry in entries ==> Printable(entry.value)
    requires DistinctKeys(out + entries) && Ends(tail, indent - 1, true)
    ensures Skip(tail).Ok?
    ensures MapFrom(PrintMap(entries, indent, style) + tail, indent, out) == Ok(Parsed(Map(out + entries), Skip(tail).value))
    decreases entries
  {
    hide Ends, HasContent, LineOf, IsItem, Skip, PrintUnder, Printable, MapFrom, MapEntry, Value, KeyLine;
    SkipEnds(tail, indent - 1, true);
    if entries == [] {
      assert PrintMap(entries, indent, style) + tail == tail && out + entries == out;
      MapStep(tail, indent, out);
    } else {
      var e := entries[0];
      var next := PrintMap(entries[1..], indent, style) + tail;
      MapEnds(entries[1..], indent, tail, style);
      var rest := ValueRoundTrip(e.value, indent, true, next, style);
      NewKey(out, entries);
      EntryReads(indent, e.key, e.value, out, PrintUnder(e.value, indent, true, style) + next, Parsed(e.value, rest), style);
      MapStart(entries, indent, style);
      var rows := PrintMap(entries, indent, style) + tail;
      assert rows == [Spaces(indent) + KeyLine(e.key, e.value, style)] + (PrintUnder(e.value, indent, true, style) + next);
      SkipContent(rows);
      MapStep(rows, indent, out);
      assert Entry(e.key, e.value) == e;
      MapFromSkip(rest, next, indent, out + [e]);
      assert out + [e] + entries[1..] == out + entries;
      MapRoundTrip(entries[1..], indent, out + [e], tail, style);
    }
  }

  lemma NewKey(out: seq<Entry>, entries: seq<Entry>)
    requires entries != [] && DistinctKeys(out + entries)
    ensures !HasKey(out, entries[0].key)
  {
    assert forall k :: 0 <= k < |out| ==> (out + entries)[k] == out[k];
    assert (out + entries)[|out|] == entries[0];
  }

  lemma {:induction false} SeqRoundTrip(items: seq<Yaml>, indent: nat, out: seq<Yaml>, tail: Rows, style: Style)
    requires forall item :: item in items ==> Printable(item)
    requires Ends(tail, indent, false)
    ensures Skip(tail).Ok?
    ensures SequenceFrom(PrintSeq(items, indent, style) + tail, indent, out)
         == Ok(Parsed(Seq(out + items), Skip(tail).value))
    decreases items
  {
    hide Ends, HasContent, LineOf, IsItem, Skip, PrintItem, Printable, SequenceFrom, Item;
    SkipEnds(tail, indent, false);
    if items == [] {
      assert PrintSeq(items, indent, style) + tail == tail && out + items == out;
      SequenceStep(tail, indent, out);
    } else {
      var next := PrintSeq(items[1..], indent, style) + tail;
      SeqEnds(items[1..], indent, tail, style);
      var rest := ItemRoundTrip(items[0], indent, next, style);
      SeqStart(items, indent, style);
      var rows := PrintSeq(items, indent, style) + tail;
      assert rows == PrintItem(items[0], indent, style) + next;
      assert rows[0] == PrintSeq(items, indent, style)[0];
      SkipContent(rows);
      SequenceStep(rows, indent, out);
      SequenceFromSkip(rest, next, indent, out + [items[0]]);
      assert out + [items[0]] + items[1..] == out + items;
      SeqRoundTrip(items[1..], indent, out + [items[0]], tail, style);
    }
  }

  lemma {:induction false} ItemRoundTrip(y: Yaml, indent: nat, tail: Rows, style: Style) returns (rest: Rows)
    requires Printable(y) && Ends(tail, indent, true)
    ensures var rows := PrintItem(y, indent, style) + tail;
      HasContent(rows[0]) && IsItem(LineOf(rows[0]).text) && Item(rows, indent) == Ok(Parsed(y, rest))
    ensures Skip(rest) == Skip(tail)
    decreases y, 1
  {
    hide Ends, HasContent, LineOf, IsItem, Skip, PrintMap, PrintUnder, MapFrom, Item, Value, KeyLine, DashLine, WithDash;
    if IsOnDash(y, style) {
      var column := DashColumn(y, indent, style);
      EndsWeaken(tail, indent, true, column - 1, true);
      MapRoundTrip(y.entries, column, [], tail, style);
      assert [] + y.entries == y.entries;
      assert y.entries[0] in y.entries;
      var under := MapItemRows(y, indent, tail, style);
      DashedMapReads(indent, column, y.entries[0].key, y.entries[0].value, under, style);
      rest := Skip(tail).value;
      SkipIsIdempotent(tail);
    } else {
      hide Printable;
      rest := ValueRoundTrip(y, indent, false, tail, style);
      ItemReads(indent, y, PrintUnder(y, indent, false, style) + tail, Parsed(y, rest), style);
      assert PrintItem(y, indent, style) + tail
          == [Spaces(indent) + DashLine(y, style)] + (PrintUnder(y, indent, false, style) + tail);
    }
  }

  /** The rows of a map item and of the same map at its own column. */
  lemma MapItemRows(y: Yaml, indent: nat, tail: Rows, style: Style) returns (under: Rows)
    requires IsOnDash(y, style)
    ensures var column := DashColumn(y, indent, style);
      var row := Spaces(column) + KeyLine(y.entries[0].key, y.entries[0].value, style);
      PrintMap(y.entries, column, style) + tail == [row] + under
      && PrintItem(y, indent, style) + tail == WithDash([row] + under, indent, column)
  {
    hide KeyLine, PrintMap, Dashed;
    var rows := FirstRow(y.entries, DashColumn(y, indent, style), style);
    under := rows + tail;
  }

  lemma FirstRow(entries: seq<Entry>, indent: nat, style: Style) returns (under: Rows)
    requires entries != []
    ensures PrintMap(entries, indent, style) == [Spaces(indent) + KeyLine(entries[0].key, entries[0].value, style)] + under
  {
    hide KeyLine, PrintUnder;
    under := PrintMap(entries, indent, style)[1..];
  }

  /** Printing a tree and reading its rows gives the tree back; blank rows at the
      end change nothing. */
  lemma DocumentRoundTrip(y: Yaml, blanks: Rows, style: Style)
    requires IsNested(y, style) && Printable(y) && forall row :: row in blanks ==> IsBlank(row)
    ensures ParseDocument(PrintDocument(y, style) + blanks) == Ok(Some(y))
  {
    hide Ends, HasContent, LineOf, IsItem, PrintMap, PrintSeq, MapFrom, SequenceFrom, IsBlank, Skip;
    BlanksEnd(blanks);
    if y.Map? {
      MapRoundTrip(y.entries, 0, [], blanks, style);
      MapStart(y.entries, 0, style);
      assert [] + y.entries == y.entries;
    } else {
      SeqRoundTrip(y.items, 0, [], blanks, style);
      SeqStart(y.items, 0, style);
      assert [] + y.items == y.items;
    }
    SkipContent(PrintDocument(y, style) + blanks);
    BlanksSkipped();
  }

  lemma BlanksSkipped()
    ensures Skip([]) == Ok([])
  {
  }

  lemma {:induction false} BlanksEnd(blanks: Rows)
    requires forall row :: row in blanks ==> IsBlank(row)
    ensures Ends(blanks, -1, true) && Ends(blanks, 0, false) && Skip(blanks) == Ok([])
  {
    hide IsBlank, HasContent, LineOf;
    SkipStep(blanks);
    if blanks == [] {
    } else {
      BlankInfo(blanks[0]);
      BlanksEnd(blanks[1..]);
    }
  }
}
