/**
 Scalars written over several rows in the reader of scripts/check-kubernetes.mjs:
 one line break is a space and n empty lines are n newlines, in the plain, the
 quoted and the folded block style, wherever the rows stand.
 */
module YamlWrapping {
  import opened Text
  import opened YamlScalars
  import opened YamlDocument
  import opened YamlPrinter
  import opened YamlTokens
  import opened YamlRoundTrip
  import opened YamlFolding

  /** A line after the first one, with the empty lines before it and its column. */
  datatype Wrapped = Wrapped(blanks: nat, column: nat, line: string)

  /** A line break that `n` empty lines follow (YAML 1.2.2, section 6.5). */
  function Break(n: nat): string { if n == 0 then " " else Newlines(n) }

  function Unwrapped(more: seq<Wrapped>): string {
    if more == [] then "" else Break(more[0].blanks) + (more[0].line + Unwrapped(more[1..]))
  }

  function WrappedLines(more: seq<Wrapped>): seq<string> {
    if more == [] then [] else EmptyLines(more[0].blanks) + ([more[0].line] + WrappedLines(more[1..]))
  }

  predicate AreLines(more: seq<Wrapped>) {
    forall k :: 0 <= k < |more| ==> more[k].line != ""
  }

  // ------------------------------------------------------------------- folding

  lemma {:induction false} EmptyFold(n: nat, rest: seq<string>, blanks: nat)
    ensures FoldRest(EmptyLines(n) + rest, blanks) == FoldRest(rest, blanks + n)
  {
    if n == 0 {
      assert EmptyLines(n) + rest == rest;
    } else {
      assert EmptyLines(n) + rest == EmptyLines(n - 1) + ([""] + rest);
      EmptyFold(n - 1, [""] + rest, blanks);
      assert ([""] + rest)[1..] == rest;
    }
  }

  lemma LineFolds(line: string, rest: seq<string>, blanks: nat)
    requires line != ""
    ensures FoldRest([line] + rest, blanks) == Break(blanks) + (line + FoldRest(rest, 0))
  {
    assert ([line] + rest)[1..] == rest;
  }

  lemma {:induction false} Folds(more: seq<Wrapped>)
    requires AreLines(more)
    ensures FoldRest(WrappedLines(more), 0) == Unwrapped(more)
  {
    if more == [] {
    } else {
      hide FoldRest;
      EmptyFold(more[0].blanks, [more[0].line] + WrappedLines(more[1..]), 0);
      LineFolds(more[0].line, WrappedLines(more[1..]), more[0].blanks);
      Folds(more[1..]);
    }
  }

  lemma {:induction false} EmptyMembers(n: nat)
    ensures forall line :: line in EmptyLines(n) ==> line == ""
  {
    if n == 0 {
    } else {
      EmptyMembers(n - 1);
    }
  }

  predicate AreRaw(more: seq<Wrapped>) {
    forall k :: 0 <= k < |more| ==> IsRawLine(more[k].line)
  }

  lemma {:induction false} WrappedAreRaw(more: seq<Wrapped>)
    requires AreRaw(more)
    ensures forall line :: line in WrappedLines(more) ==> IsRawLine(line)
  {
    hide IsRawLine;
    EmptyIsRaw();
    if more == [] {
    } else {
      EmptyMembers(more[0].blanks);
      WrappedAreRaw(more[1..]);
    }
  }

  lemma EmptyIsRaw()
    ensures IsRawLine("")
  {
  }

  lemma {:induction false} LastWrapped(more: seq<Wrapped>)
    requires AreLines(more) && more != []
    ensures var lines := WrappedLines(more); lines != [] && lines[|lines| - 1] != ""
  {
    if |more| == 1 {
    } else {
      LastWrapped(more[1..]);
    }
  }

  /** A scalar wrapped over any lines: in both quoted styles, and in the plain one
      when it starts as a plain scalar may, a single break is read as a space and n
      empty lines as n newlines. */
  lemma WrappedReads(first: string, more: seq<Wrapped>, quote: char)
    requires IsQuote(quote) && IsRawLine(first) && AreRaw(more) && AreLines(more)
    ensures InlineScalar(QuotedLines([first] + WrappedLines(more), quote)) == Ok(Str(first + Unwrapped(more)))
    ensures more != [] && (first == "" || !IsIndicator(first[0])) ==>
      InlineScalar([first] + WrappedLines(more)) == Ok(Str(first + Unwrapped(more)))
  {
    hide IsRawLine, InlineScalar, QuotedLines, FoldRest, AreRaw, WrappedLines;
    var lines := [first] + WrappedLines(more);
    WrappedAreRaw(more);
    if more == [] {
      NoLines();
    } else {
      LastWrapped(more);
      assert lines[|lines| - 1] == WrappedLines(more)[|WrappedLines(more)| - 1];
    }
    StylesAgree(lines, quote);
    assert lines[1..] == WrappedLines(more);
    Folds(more);
  }

  lemma NoLines()
    ensures WrappedLines([]) == []
  {
  }

  // --------------------------------------------------------- lines, one by one

  function OnePerRow(lines: seq<string>): (more: seq<Wrapped>)
    ensures |more| == |lines|
    ensures forall k :: 0 <= k < |more| ==> more[k] == Wrapped(0, 0, lines[k])
  {
    seq(|lines|, k requires 0 <= k < |lines| => Wrapped(0, 0, lines[k]))
  }

  lemma {:induction false} OnePerRowLines(lines: seq<string>)
    ensures WrappedLines(OnePerRow(lines)) == lines
  {
    if lines == [] {
    } else {
      assert OnePerRow(lines)[1..] == OnePerRow(lines[1..]);
      OnePerRowLines(lines[1..]);
    }
  }

  lemma {:induction false} SpacedJoin(first: string, lines: seq<string>)
    ensures JoinWith([first] + lines, " ") == first + Unwrapped(OnePerRow(lines))
    decreases |lines|
  {
    var all := [first] + lines;
    assert all[1..] == lines;
    if lines == [] {
    } else {
      assert OnePerRow(lines)[1..] == OnePerRow(lines[1..]);
      SpacedJoin(lines[0], lines[1..]);
      assert [lines[0]] + lines[1..] == lines;
    }
  }

  /** Lines none of which is empty are read as one line, joined by single spaces. */
  lemma LinesJoinBySpaces(lines: seq<string>, quote: char)
    requires IsQuote(quote) && lines != [] && forall k :: 0 <= k < |lines| ==> lines[k] != "" && IsRawLine(lines[k])
    ensures InlineScalar(QuotedLines(lines, quote)) == Ok(Str(JoinWith(lines, " ")))
    ensures |lines| > 1 && !IsIndicator(lines[0][0]) ==> InlineScalar(lines) == Ok(Str(JoinWith(lines, " ")))
  {
    hide InlineScalar, QuotedLines, IsRawLine, Unwrapped, WrappedLines, JoinWith, IsIndicator;
    OnePerRowLines(lines[1..]);
    SpacedJoin(lines[0], lines[1..]);
    assert [lines[0]] + lines[1..] == lines;
    WrappedReads(lines[0], OnePerRow(lines[1..]), quote);
  }

  // ----------------------------------------------------- the rows of a document

  /** A line as it stands in its row, which is all a quoted scalar needs. */
  predicate IsVisibleLine(line: string) {
    line != "" && !IsSpace(line[0]) && !IsSpace(line[|line| - 1])
  }

  predicate AreContinued(more: seq<Wrapped>, parent: nat, isPlain: bool) {
    forall k :: 0 <= k < |more| ==>
      more[k].column > parent && IsVisibleLine(more[k].line) && (isPlain ==> IsQuiet(more[k].line))
  }

  function WrappedRows(more: seq<Wrapped>): Rows {
    if more == [] then []
    else EmptyLines(more[0].blanks) + ([Spaces(more[0].column) + more[0].line] + WrappedRows(more[1..]))
  }

  lemma {:induction false} EmptyRowsWait(n: nat, rest: Rows, parent: nat, isPlain: bool, pending: nat)
    ensures Continuation(EmptyLines(n) + rest, parent, isPlain, pending) == Continuation(rest, parent, isPlain, pending + n)
  {
    hide IsBlank, Continuation;
    if n == 0 {
      assert EmptyLines(n) + rest == rest;
    } else {
      assert EmptyLines(n) + rest == EmptyLines(n - 1) + ([""] + rest);
      EmptyRowsWait(n - 1, [""] + rest, parent, isPlain, pending);
      EmptyIsBlank();
      ContinuationStep([""] + rest, parent, isPlain, pending + n - 1);
      assert ([""] + rest)[1..] == rest;
    }
  }

  lemma LineContinues(column: nat, line: string, rest: Rows, parent: nat, isPlain: bool, pending: nat)
    requires column > parent && IsVisibleLine(line) && (isPlain ==> IsQuiet(line))
    ensures Continuation([Spaces(column) + line] + rest, parent, isPlain, pending)
         == EmptyLines(pending) + ([line] + Continuation(rest, parent, isPlain, 0))
  {
    hide Continuation, IsSpace, Uncommented, EmptyLines, IsQuiet;
    var row := Spaces(column) + line;
    ContinuationStep([row] + rest, parent, isPlain, pending);
    assert ([row] + rest)[1..] == rest;
    TrimSpaces(column, line);
    NoBlankStarts(line);
    SpacesLead(column, line);
    if isPlain {
      QuietRow(column, line);
    }
    assert EmptyLines(pending) + [line] + Continuation(rest, parent, isPlain, 0)
        == EmptyLines(pending) + ([line] + Continuation(rest, parent, isPlain, 0));
  }

  lemma NoBlankStarts(line: string)
    requires IsVisibleLine(line)
    ensures line[0] != ' '
  {
  }

  lemma QuietRow(column: nat, line: string)
    requires IsQuiet(line)
    ensures StripComment(Spaces(column) + line) == Spaces(column) + line
  {
    hide Uncommented, IsSpace;
    var row := Spaces(column) + line;
    QuietKept(row, "", true);
    assert row + "" == row;
    NothingUncommented(EndsInSpace(row, true));
  }

  /** The rows of a wrapped scalar are taken as its lines, and no more of them. */
  lemma {:induction false} WrappedContinues(more: seq<Wrapped>, tail: Rows, parent: nat, isPlain: bool)
    requires AreContinued(more, parent, isPlain) && EndsScalar(tail, parent, isPlain)
    ensures Continuation(WrappedRows(more) + tail, parent, isPlain, 0) == WrappedLines(more)
  {
    hide Continuation, IsQuiet, IsVisibleLine, EndsScalar, EmptyLines;
    if more == [] {
      assert WrappedRows(more) + tail == tail;
      ContinuationStops(tail, parent, isPlain, 0);
    } else {
      var w, rest := more[0], WrappedRows(more[1..]) + tail;
      WrappedContinues(more[1..], tail, parent, isPlain);
      LineContinues(w.column, w.line, rest, parent, isPlain, w.blanks);
      EmptyRowsWait(w.blanks, [Spaces(w.column) + w.line] + rest, parent, isPlain, 0);
      assert WrappedRows(more) + tail == EmptyLines(w.blanks) + ([Spaces(w.column) + w.line] + rest);
    }
  }

  lemma {:induction false} AsManyRows(more: seq<Wrapped>)
    ensures |WrappedRows(more)| == |WrappedLines(more)|
  {
    if more == [] {
    } else {
      AsManyRows(more[1..]);
    }
  }

  lemma VisibleAreLines(more: seq<Wrapped>, parent: nat, isPlain: bool)
    requires AreContinued(more, parent, isPlain)
    ensures AreLines(more)
  {
  }

  /** A plain scalar wrapped over rows deeper than its parent is read as its lines,
      a single break as a space and n empty rows as n newlines, and nothing after it
      is taken. */
  lemma WrappedPlainReads(first: string, more: seq<Wrapped>, parent: nat, inMap: bool, tail: Rows)
    requires first != "" && !IsIndicator(first[0]) && IsRawLine(first) && AreRaw(more) && more != []
    requires AreContinued(more, parent, true) && EndsScalar(tail, parent, true)
    ensures Value(WrappedRows(more) + tail, first, parent, inMap)
         == Ok(Parsed(Str(first + Unwrapped(more)), tail))
  {
    hide InlineScalar, Continuation, IsRawLine, AreRaw, AreContinued, EndsScalar, Unwrapped, WrappedRows, WrappedLines;
    VisibleAreLines(more, parent, true);
    RawFirst(first);
    WrappedContinues(more, tail, parent, true);
    WrappedReads(first, more, '"');
    AsManyRows(more);
  }

  lemma RawFirst(first: string)
    requires first != "" && !IsIndicator(first[0]) && IsRawLine(first)
    ensures first[0] != '|' && first[0] != '>' && !IsQuote(first[0])
  {
    assert first[0] in first;
  }

  /** The same in quotes: the first line after the opening quote, the last one
      before the closing quote. */
  lemma WrappedQuotedReads(first: string, more: seq<Wrapped>, last: Wrapped, quote: char, parent: nat, inMap: bool, tail: Rows)
    requires IsQuote(quote) && IsRawLine(first) && AreRaw(more + [last]) && AreLines(more + [last])
    requires AreContinued(more + [last.(line := last.line + [quote])], parent, false) && EndsScalar(tail, parent, false)
    ensures Value(WrappedRows(more + [last.(line := last.line + [quote])]) + tail, [quote] + first, parent, inMap)
         == Ok(Parsed(Str(first + Unwrapped(more + [last])), tail))
  {
    hide InlineScalar, Continuation, IsRawLine, AreRaw, AreContinued, AreLines, EndsScalar, Unwrapped, WrappedRows,
      WrappedLines, QuotedLines;
    var closed := more + [last.(line := last.line + [quote])];
    WrappedContinues(closed, tail, parent, false);
    WrappedReads(first, more + [last], quote);
    AsManyRows(closed);
    ClosedLines(first, more, last, quote);
  }

  lemma {:induction false} WrappedJoin(more: seq<Wrapped>, last: Wrapped)
    ensures WrappedLines(more + [last]) == WrappedLines(more) + (EmptyLines(last.blanks) + [last.line])
  {
    hide EmptyLines;
    if more == [] {
      assert more + [last] == [last] && [last][1..] == [];
      NoLines();
      assert WrappedLines([last]) == EmptyLines(last.blanks) + ([last.line] + WrappedLines([last][1..]));
    } else {
      assert (more + [last])[1..] == more[1..] + [last];
      WrappedJoin(more[1..], last);
    }
  }

  lemma ClosedLines(first: string, more: seq<Wrapped>, last: Wrapped, quote: char)
    ensures QuotedLines([first] + WrappedLines(more + [last]), quote)
         == [[quote] + first] + WrappedLines(more + [last.(line := last.line + [quote])])
  {
    hide EmptyLines, WrappedLines;
    WrappedJoin(more, last);
    WrappedJoin(more, last.(line := last.line + [quote]));
    var before := WrappedLines(more) + EmptyLines(last.blanks);
    var lines := [first] + WrappedLines(more + [last]);
    assert lines == [first] + before + [last.line];
    assert lines[1..|lines| - 1] == before;
  }

  // ------------------------------------------------------------- block scalars

  /** What stands between two lines of a folded block: more indented lines keep
      their breaks. */
  function BlockBreak(before: string, blanks: nat, line: string): string {
    if IsIndented(line) then Newlines(blanks + 1)
    else if blanks == 0 && IsIndented(before) then "\n"
    else Break(blanks)
  }

  predicate IsIndented(line: string) { line != "" && line[0] in " \t" }

  function BlockUnwrapped(before: string, more: seq<Wrapped>): string
    decreases more
  {
    if more == [] then ""
    else BlockBreak(before, more[0].blanks, more[0].line) + (more[0].line + BlockUnwrapped(more[0].line, more[1..]))
  }

  lemma {:induction false} BlankBlockLines(n: nat, rest: seq<string>, before: string)
    ensures FoldBlockRest(EmptyLines(n) + rest, before) == Newlines(n) + FoldBlockRest(rest, if n == 0 then before else "")
  {
    hide MoreIndented;
    if n == 0 {
      assert EmptyLines(n) + rest == rest;
      assert Newlines(0) + FoldBlockRest(rest, before) == FoldBlockRest(rest, before);
    } else {
      assert EmptyLines(n) + rest == EmptyLines(n - 1) + ([""] + rest);
      BlankBlockLines(n - 1, [""] + rest, before);
      assert ([""] + rest)[1..] == rest;
      assert Newlines(n - 1) + ("\n" + FoldBlockRest(rest, "")) == Newlines(n) + FoldBlockRest(rest, "");
    }
  }

  lemma BlockLineStep(before: string, line: string, rest: seq<string>)
    requires line != ""
    ensures FoldBlockRest([line] + rest, before)
         == (if MoreIndented(line) || MoreIndented(before) then "\n" else if before == "" then "" else " ")
            + (line + FoldBlockRest(rest, line))
  {
    hide MoreIndented;
    assert ([line] + rest)[1..] == rest;
    var more := FoldBlockRest(rest, line);
    assert "\n" + line + more == "\n" + (line + more) && " " + line + more == " " + (line + more);
    assert "" + (line + more) == line + more;
  }

  lemma BreaksJoin(n: nat, text: string)
    ensures Newlines(n) + ("\n" + text) == Newlines(n + 1) + text
    ensures Newlines(n) + ("" + text) == Newlines(n) + text
    ensures Newlines(0) + text == text
  {
  }

  lemma BlockLineFolds(before: string, blanks: nat, line: string, rest: seq<string>)
    requires line != "" && (blanks == 0 ==> before != "")
    ensures Newlines(blanks) + FoldBlockRest([line] + rest, if blanks == 0 then before else "")
         == BlockBreak(before, blanks, line) + (line + FoldBlockRest(rest, line))
  {
    BlockLineStep(if blanks == 0 then before else "", line, rest);
    NotIndented();
    IndentedIs(line);
    IndentedIs(before);
    hide FoldBlockRest, MoreIndented, IsIndented;
    var all := line + FoldBlockRest(rest, line);
    BreaksJoin(blanks, all);
    BreaksJoin(0, "\n" + all);
    BreaksJoin(0, " " + all);
    assert Newlines(1) == "\n";
  }

  lemma IndentedIs(line: string)
    ensures IsIndented(line) == MoreIndented(line)
  {
  }

  lemma NotIndented()
    ensures !MoreIndented("")
  {
  }

  lemma {:induction false} BlockFolds(before: string, more: seq<Wrapped>)
    requires AreLines(more) && before != ""
    ensures FoldBlockRest(WrappedLines(more), before) == BlockUnwrapped(before, more)
    decreases more
  {
    if more == [] {
    } else {
      hide FoldBlockRest, BlockBreak;
      var w, rest := more[0], WrappedLines(more[1..]);
      BlankBlockLines(w.blanks, [w.line] + rest, before);
      BlockLineFolds(before, w.blanks, w.line, rest);
      BlockFolds(w.line, more[1..]);
    }
  }

  /** A folded block: single breaks between lines are spaces, n empty lines are n
      newlines, and a more indented line keeps the breaks on both its sides. */
  lemma FoldedBlockIs(first: string, more: seq<Wrapped>)
    requires AreLines(more) && first != ""
    ensures FoldBlock([first] + WrappedLines(more)) == first + BlockUnwrapped(first, more)
  {
    hide FoldBlockRest, BlockUnwrapped;
    BlockFolds(first, more);
    assert ([first] + WrappedLines(more))[1..] == WrappedLines(more);
  }

  /** Empty lines before the first line of a folded block: one newline fewer than
      there are lines, unless the line is more indented. */
  lemma FoldedBlockAfterBlanks(m: nat, first: string, more: seq<Wrapped>)
    requires AreLines(more) && first != ""
    ensures FoldBlock(EmptyLines(m + 1) + ([first] + WrappedLines(more)))
         == Newlines(if IsIndented(first) then m + 1 else m) + (first + BlockUnwrapped(first, more))
  {
    var rest := [first] + WrappedLines(more);
    EmptyFirst(m);
    assert EmptyLines(m + 1) + rest == [""] + (EmptyLines(m) + rest);
    assert ([""] + (EmptyLines(m) + rest))[1..] == EmptyLines(m) + rest;
    hide FoldBlockRest, BlockUnwrapped, EmptyLines;
    BlankBlockLines(m, rest, "");
    BlockLineStep("", first, WrappedLines(more));
    BlockFolds(first, more);
    BreaksJoin(m, first + BlockUnwrapped(first, more));
    NotIndented();
    IndentedIs(first);
  }

  lemma {:induction false} EmptyFirst(m: nat)
    ensures EmptyLines(m + 1) == [""] + EmptyLines(m)
  {
    if m == 0 {
    } else {
      EmptyFirst(m - 1);
    }
  }

  /** The header of a block scalar; the indicator and the chomping in either order. */
  function HeaderText(folded: bool, indicator: Option<nat>, chomp: string, chompFirst: bool): string
    requires indicator.Some? ==> 1 <= indicator.value <= 9
  {
    var digit := if indicator.Some? then [(indicator.value + '0' as int) as char] else "";
    (if folded then ">" else "|") + if chompFirst then chomp + digit else digit + chomp
  }

  lemma HeaderReads(folded: bool, indicator: Option<nat>, chomp: string, chompFirst: bool)
    requires (indicator.Some? ==> 1 <= indicator.value <= 9) && IsChomping(chomp)
    ensures ParseHeader(Trim(StripComment(HeaderText(folded, indicator, chomp, chompFirst))))
         == Some(Header(folded, if indicator.Some? then indicator.value else 0, chomp))
  {
    var t := HeaderText(folded, indicator, chomp, chompFirst);
    HeaderIsQuiet(folded, indicator, chomp, chompFirst);
    HeaderParses(folded, indicator, chomp, chompFirst);
    hide HeaderText, ParseHeader, StripComment, Trim;
    QuietRow(0, t);
    assert Spaces(0) + t == t;
    TrimToken(t);
  }

  lemma HeaderParses(folded: bool, indicator: Option<nat>, chomp: string, chompFirst: bool)
    requires (indicator.Some? ==> 1 <= indicator.value <= 9) && IsChomping(chomp)
    ensures ParseHeader(HeaderText(folded, indicator, chomp, chompFirst))
         == Some(Header(folded, if indicator.Some? then indicator.value else 0, chomp))
  {
    var t := HeaderText(folded, indicator, chomp, chompFirst);
    HeaderIsQuiet(folded, indicator, chomp, chompFirst);
    TrimToken(t);
    hide TrimEnd, IsSpace, IsQuiet;
    if indicator.None? {
      PlainHeaderParses(folded, chomp, chompFirst);
    } else {
      IndicatedHeaderParses(folded, indicator.value, chomp, chompFirst);
    }
  }

  lemma PlainHeaderParses(folded: bool, chomp: string, chompFirst: bool)
    requires IsChomping(chomp)
    requires var t := HeaderText(folded, None, chomp, chompFirst); TrimEnd(t) == t
    ensures ParseHeader(HeaderText(folded, None, chomp, chompFirst)) == Some(Header(folded, 0, chomp))
  {
    hide TrimEnd;
    var t := HeaderText(folded, None, chomp, chompFirst);
    assert chomp != "" ==> chomp == [chomp[0]] && t[1..] == [t[1]];
  }

  lemma IndicatedHeaderParses(folded: bool, n: nat, chomp: string, chompFirst: bool)
    requires 1 <= n <= 9 && IsChomping(chomp)
    requires var t := HeaderText(folded, Some(n), chomp, chompFirst); TrimEnd(t) == t
    ensures ParseHeader(HeaderText(folded, Some(n), chomp, chompFirst)) == Some(Header(folded, n, chomp))
  {
    hide TrimEnd;
    var t, digit := HeaderText(folded, Some(n), chomp, chompFirst), (n + '0' as int) as char;
    assert IsIndentDigit(digit) && digit as int - '0' as int == n && !IsChomp(digit);
    if chomp != "" {
      assert chomp == [chomp[0]] && t[1..2] == [t[1]] && t[2..] == [t[2]];
    }
  }

  lemma HeaderIsQuiet(folded: bool, indicator: Option<nat>, chomp: string, chompFirst: bool)
    requires (indicator.Some? ==> 1 <= indicator.value <= 9) && IsChomping(chomp)
    ensures var t := HeaderText(folded, indicator, chomp, chompFirst); IsQuiet(t) && IsVisibleLine(t)
  {
  }

  /** What a block's chomping leaves after its last line, before `blanks` rows. */
  function Ending(chomp: string, blanks: nat): string {
    if chomp == "-" then "" else if chomp == "+" then "\n" + Newlines(blanks) else "\n"
  }

  predicate IsBlockIndent(lines: seq<string>, indicator: Option<nat>, parent: nat, indent: nat) {
    if indicator.Some? then 1 <= indicator.value <= 9 && indent == parent + indicator.value
    else indent > parent && BlockStart(lines)
  }

  /** A block scalar of any header: its lines literally or folded, then what its
      chomping leaves of the blank rows after it. */
  lemma BlockReads(lines: seq<string>, folded: bool, indicator: Option<nat>, chomp: string, chompFirst: bool,
                   indent: nat, parent: nat, tail: Rows)
    requires lines != [] && !IsBlank(lines[|lines| - 1])
    requires IsBlockIndent(lines, indicator, parent, indent) && IsChomping(chomp) && EndsBlock(tail, indent)
    ensures BlockScalar(BlockRows(lines, indent) + tail, HeaderText(folded, indicator, chomp, chompFirst), parent)
         == Ok(Parsed(Str((if folded then FoldBlock(lines) else Join(lines)) + Ending(chomp, BlankRun(tail))), tail))
  {
    hide HeaderText, ParseHeader, StripComment, Trim, BlockLines, KeptLines, IsBlank, Join, FoldBlock, BlockStart, EndsBlock,
      IsChomping, BlockScalar, Chomped, Ending, BlockRows, BlankRun, Body;
    var rows := BlockRows(lines, indent) + tail;
    HeaderReads(folded, indicator, chomp, chompFirst);
    if indicator.Some? {
      BlockRowsRead(lines, indent, parent, tail);
    } else {
      BlockStartReads(lines, indent, parent, tail);
    }
    var blanks := BlockLines(tail, parent, Some(indent));
    BlockStops(tail, indent, parent);
    KeptIs(lines, blanks);
    assert (lines + blanks)[..|lines|] == lines;
    var h := Header(folded, if indicator.Some? then indicator.value else 0, chomp);
    BlockScalarIs(rows, HeaderText(folded, indicator, chomp, chompFirst), parent, h, lines + blanks, lines);
    assert rows[|lines|..] == tail;
    BodyIs(lines, folded);
    EndingIs(Body(lines, folded), |blanks|, chomp);
  }

  lemma EndingIs(text: string, blanks: nat, chomp: string)
    requires IsChomping(chomp)
    ensures Chomped(text, false, blanks, chomp) == text + Ending(chomp, blanks)
  {
    assert text + "" == text && text + "\n" + Newlines(blanks) == text + ("\n" + Newlines(blanks));
  }

  lemma {:induction false} NothingVisible(rows: Rows, parent: nat, content: Option<nat>)
    requires EndsBlock(rows, if content.Some? then content.value else parent + 1)
    ensures var lines := BlockLines(rows, parent, content);
      |lines| == BlankRun(rows) && forall k :: 0 <= k < |lines| ==> IsBlank(lines[k])
  {
    hide BlockLines, IsBlank, LeadingSpaces, SliceFrom;
    BlockLinesStep(rows, parent, content);
    if rows == [] || !IsBlank(rows[0]) {
    } else {
      NothingVisible(rows[1..], parent, content);
      EmptyIsBlank();
      if content.Some? {
        SliceIsBlank(rows[0], content.value);
      }
    }
  }

  lemma {:induction false} NothingKept(lines: seq<string>)
    requires forall k :: 0 <= k < |lines| ==> IsBlank(lines[k])
    ensures KeptLines(lines) == 0
  {
    hide IsBlank;
    KeptLinesStep(lines);
    if lines == [] {
    } else {
      NothingKept(lines[..|lines| - 1]);
    }
  }

  /** A block without a line is empty, or the blank rows themselves when kept; they
      are left for what follows. */
  lemma EmptyBlockReads(folded: bool, indicator: Option<nat>, chomp: string, chompFirst: bool, parent: nat, tail: Rows)
    requires (indicator.Some? ==> 1 <= indicator.value <= 9) && IsChomping(chomp)
    requires EndsBlock(tail, parent + if indicator.Some? then indicator.value else 1)
    ensures BlockScalar(tail, HeaderText(folded, indicator, chomp, chompFirst), parent)
         == Ok(Parsed(Str(if chomp == "+" then Newlines(BlankRun(tail)) else ""), tail))
  {
    hide HeaderText, ParseHeader, StripComment, Trim, BlockLines, KeptLines, IsBlank, Join, FoldBlock, EndsBlock, IsChomping;
    HeaderReads(folded, indicator, chomp, chompFirst);
    var content := if indicator.Some? then Some(parent + indicator.value) else None;
    NothingVisible(tail, parent, content);
    NothingKept(BlockLines(tail, parent, content));
    assert tail[0..] == tail;
  }
}
