/**
 The strict YAML reader in the form scripts/check-kubernetes.mjs gives it:
 loops over characters, and a document whose functions share one cursor and
 overwrite rows in place. Every method is proved against the functions of
 YamlScalars and YamlDocument.
 */
module YamlReader {
  import opened Text
  import opened YamlScalars
  import opened YamlDocument

  // ---------------------------------------------------------- scalar loops

  /** One turn of `stripComment`'s loop, as the number of characters kept. */
  lemma UncommentedStep(line: string, k: nat, quote: Option<char>, atBreak: bool)
    requires k < |line|
    ensures |Uncommented(line[k..], quote, atBreak)|
         == if quote == Some('"') && line[k] == '\\' then
              if k + 1 == |line| then 1 else 2 + |Uncommented(line[k + 2..], quote, IsSpace(line[k + 1]))|
            else if quote.None? && line[k] == '#' && atBreak then 0
            else
              1 + |Uncommented(line[k + 1..],
                               if quote.Some? && line[k] == quote.value then None
                               else if quote.None? && IsQuote(line[k]) then Some(line[k])
                               else quote,
                               IsSpace(line[k]))|
  {
    hide IsSpace;
    assert line[k..][1..] == line[k + 1..];
    if k + 1 < |line| {
      assert line[k..][2..] == line[k + 2..];
    }
    QuoteIsNoSpace(line[k]);
  }

  lemma QuoteIsNoSpace(c: char)
    ensures IsQuote(c) ==> !IsSpace(c)
  {
  }

  lemma UncommentedEnd(quote: Option<char>, atBreak: bool)
    ensures Uncommented("", quote, atBreak) == ""
  {
  }

  /** What is kept is a prefix of the line, so its length says it all. */
  method CutComment(line: string) returns (r: string)
    ensures r == StripComment(line)
  {
    hide Uncommented, IsSpace;
    var quote: Option<char> := None;
    var k := 0;
    while k < |line|
      invariant 0 <= k <= |line|
      invariant |StripComment(line)|
             == k + |Uncommented(line[k..], quote, k == 0 || IsSpace(line[k - 1]))|
    {
      var c := line[k];
      UncommentedStep(line, k, quote, k == 0 || IsSpace(line[k - 1]));
      if quote == Some('"') && c == '\\' {
        if k + 1 == |line| { return line; }
        k := k + 1;
      } else if quote.Some? {
        if c == quote.value { quote := None; }
      } else if IsQuote(c) {
        quote := Some(c);
      } else if c == '#' && (k == 0 || IsSpace(line[k - 1])) {
        return line[..k];
      }
      k := k + 1;
    }
    UncommentedEnd(quote, k == 0 || IsSpace(line[k - 1]));
    return line;
  }

  method FoldLines(lines: seq<string>) returns (out: string)
    requires |lines| > 0
    ensures out == FoldFlow(lines)
  {
    out := lines[0];
    var blanks := 0;
    for k := 1 to |lines|
      invariant FoldFlow(lines) == out + FoldRest(lines[k..], blanks)
    {
      var line := lines[k];
      if line == "" {
        blanks := blanks + 1;
        continue;
      }
      out := out + (if blanks > 0 then Newlines(blanks) else " ");
      out := out + line;
      blanks := 0;
    }
  }

  /** Counts the run of newlines at `k` as the quoted readers do. */
  method SkipBreaks(text: string, start: nat) returns (breaks: nat, k: nat)
    requires start < |text| && text[start] == '\n'
    ensures breaks == BreakRun(text[start..]) && k == start + breaks <= |text| && breaks > 0
  {
    breaks, k := 0, start;
    while k < |text| && text[k] == '\n'
      invariant start <= k <= |text| && breaks == k - start
      invariant BreakRun(text[start..]) == breaks + BreakRun(text[k..])
    {
      breaks := breaks + 1;
      k := k + 1;
    }
  }

  /** A quoted scalar of which `out` is read and the rest is to be read. */
  ghost predicate HasRead(whole: Result<string, YamlError>, out: string, unread: Result<string, YamlError>) {
    whole == Prepend(out, unread)
  }

  lemma NothingRead(whole: Result<string, YamlError>)
    ensures HasRead(whole, "", whole)
  {
    PrependNothing("", whole);
  }

  lemma ReadMore(whole: Result<string, YamlError>, out: string, unread: Result<string, YamlError>, more: string,
                 rest: Result<string, YamlError>)
    requires HasRead(whole, out, unread) && unread == Prepend(more, rest)
    ensures HasRead(whole, out + more, rest)
  {
    PrependTwice(out, more, rest);
  }

  /** What ends the rest ends the whole. */
  lemma ReadEnds(whole: Result<string, YamlError>, out: string, unread: Result<string, YamlError>)
    requires HasRead(whole, out, unread)
    ensures unread == Ok("") ==> whole == Ok(out)
    ensures unread.Err? ==> whole == unread
  {
    assert out + "" == out;
  }

  lemma QuoteAt(text: string, k: nat)
    requires k < |text| && text[k] == '"'
    ensures DoubleQuotedFrom(text[k..]) == if NothingAfter(text[k + 1..]) then Ok("") else Err(TextAfterQuoted)
  {
    hide NothingAfter;
    assert text[k..][1..] == text[k + 1..];
  }

  lemma BackslashAtEnd(text: string, k: nat)
    requires k + 1 == |text| && text[k] == '\\'
    ensures DoubleQuotedFrom(text[k..]) == Err(UnknownEscape)
  {
  }

  lemma EscapedBreakAt(text: string, k: nat)
    requires k + 1 < |text| && text[k] == '\\' && text[k + 1] == '\n'
    ensures DoubleQuotedFrom(text[k..]) == DoubleQuotedFrom(text[k + 2..])
  {
    assert text[k..][2..] == text[k + 2..];
  }

  lemma HexEscapeAt(text: string, k: nat)
    requires k + 1 < |text| && text[k] == '\\' && text[k + 1] in {'x', 'u', 'U'}
    ensures var end := k + 2 + HexSize(text[k + 1]);
      DoubleQuotedFrom(text[k..]) ==
      if end > |text| || exists c :: c in text[k + 2..end] && !IsHex(c) then Err(BadHexEscape)
      else
        match CodePoint(HexValue(text[k + 2..end]))
        case None => Err(BadCodePoint)
        case Some(c) => Prepend([c], DoubleQuotedFrom(text[end..]))
  {
    hide HexValue, CodePoint, IsHex, Prepend;
    var rest, size := text[k..], HexSize(text[k + 1]);
    if k + 2 + size <= |text| {
      assert rest[2..2 + size] == text[k + 2..k + 2 + size] && rest[2 + size..] == text[k + 2 + size..];
    }
  }

  lemma SimpleEscapeAt(text: string, k: nat)
    requires k + 1 < |text| && text[k] == '\\' && text[k + 1] !in {'\n', 'x', 'u', 'U'}
    ensures DoubleQuotedFrom(text[k..]) ==
      match SimpleEscape(text[k + 1])
      case None => Err(UnknownEscape)
      case Some(c) => Prepend([c], DoubleQuotedFrom(text[k + 2..]))
  {
    hide SimpleEscape, Prepend;
    assert text[k..][2..] == text[k + 2..];
  }

  lemma BreaksAt(text: string, k: nat)
    requires k < |text| && text[k] == '\n'
    ensures BreakRun(text[k..]) > 0
    ensures var next := k + BreakRun(text[k..]);
      DoubleQuotedFrom(text[k..]) == Prepend(FoldedBreaks(next - k), DoubleQuotedFrom(text[next..]))
  {
    assert BreakRun(text[k..]) > 0;
    hide BreakRun, FoldedBreaks, Prepend;
    assert text[k..][BreakRun(text[k..])..] == text[k + BreakRun(text[k..])..];
  }

  lemma CharAt(text: string, k: nat)
    requires k < |text| && text[k] !in {'"', '\\', '\n'}
    ensures DoubleQuotedFrom(text[k..]) == Prepend([text[k]], DoubleQuotedFrom(text[k + 1..]))
  {
    hide Prepend;
    assert text[k..][1..] == text[k + 1..];
  }

  method ReadDoubleQuoted(text: string) returns (r: Result<string, YamlError>)
    requires text != "" && text[0] == '"'
    ensures r == DoubleQuotedFrom(text[1..])
  {
    hide DoubleQuotedFrom, HasRead, Trim, StripComment, SimpleEscape, HexValue, CodePoint, BreakRun, Prepend;
    var out := "";
    var k := 1;
    ghost var whole := DoubleQuotedFrom(text[1..]);
    NothingRead(whole);
    while k < |text|
      invariant 1 <= k <= |text| && HasRead(whole, out, DoubleQuotedFrom(text[k..]))
    {
      ghost var unread := DoubleQuotedFrom(text[k..]);
      ReadEnds(whole, out, unread);
      var c := text[k];
      if c == '"' {
        QuoteAt(text, k);
        var after := CutComment(text[k + 1..]);
        if Trim(after) != "" { return Err(TextAfterQuoted); }
        return Ok(out);
      }
      if c == '\\' {
        if k + 1 == |text| {
          BackslashAtEnd(text, k);
          return Err(UnknownEscape);
        }
        var e := text[k + 1];
        if e == '\n' {
          EscapedBreakAt(text, k);
          k := k + 2;
          continue;
        }
        if e == 'x' || e == 'u' || e == 'U' {
          HexEscapeAt(text, k);
          var size := HexSize(e);
          if k + 2 + size > |text| { return Err(BadHexEscape); }
          var hex := text[k + 2..k + 2 + size];
          if exists h :: h in hex && !IsHex(h) { return Err(BadHexEscape); }
          match CodePoint(HexValue(hex)) {
            case None => return Err(BadCodePoint);
            case Some(decoded) =>
              ReadMore(whole, out, unread, [decoded], DoubleQuotedFrom(text[k + 2 + size..]));
              out := out + [decoded];
          }
          k := k + 2 + size;
          continue;
        }
        SimpleEscapeAt(text, k);
        match SimpleEscape(e) {
          case None => return Err(UnknownEscape);
          case Some(decoded) =>
            ReadMore(whole, out, unread, [decoded], DoubleQuotedFrom(text[k + 2..]));
            out := out + [decoded];
        }
        k := k + 2;
        continue;
      }
      if c == '\n' {
        BreaksAt(text, k);
        var breaks, next := SkipBreaks(text, k);
        ReadMore(whole, out, unread, FoldedBreaks(breaks), DoubleQuotedFrom(text[next..]));
        out := out + (if breaks == 1 then " " else Newlines(breaks - 1));
        k := next;
        continue;
      }
      CharAt(text, k);
      ReadMore(whole, out, unread, [c], DoubleQuotedFrom(text[k + 1..]));
      out := out + [c];
      k := k + 1;
    }
    ReadEnds(whole, out, DoubleQuotedFrom(text[k..]));
    NothingUnread(text);
    return Err(Unterminated);
  }

  lemma NothingUnread(text: string)
    ensures DoubleQuotedFrom(text[|text|..]) == Err(Unterminated)
    ensures SingleQuotedFrom(text[|text|..]) == Err(Unterminated)
  {
  }

  lemma SingleQuoteAt(text: string, k: nat)
    requires k < |text| && text[k] == '\''
    ensures SingleQuotedFrom(text[k..]) ==
      if k + 1 < |text| && text[k + 1] == '\'' then Prepend("'", SingleQuotedFrom(text[k + 2..]))
      else if NothingAfter(text[k + 1..]) then Ok("")
      else Err(TextAfterQuoted)
  {
    hide NothingAfter, Prepend;
    assert text[k..][1..] == text[k + 1..];
    if k + 1 < |text| {
      assert text[k..][2..] == text[k + 2..];
    }
  }

  lemma SingleQuotedBreaksAt(text: string, k: nat)
    requires k < |text| && text[k] == '\n'
    ensures BreakRun(text[k..]) > 0
    ensures var next := k + BreakRun(text[k..]);
      SingleQuotedFrom(text[k..]) == Prepend(FoldedBreaks(next - k), SingleQuotedFrom(text[next..]))
  {
    assert BreakRun(text[k..]) > 0;
    hide BreakRun, FoldedBreaks, Prepend;
    assert text[k..][BreakRun(text[k..])..] == text[k + BreakRun(text[k..])..];
  }

  lemma SingleQuotedCharAt(text: string, k: nat)
    requires k < |text| && text[k] !in {'\'', '\n'}
    ensures SingleQuotedFrom(text[k..]) == Prepend([text[k]], SingleQuotedFrom(text[k + 1..]))
  {
    hide Prepend;
    assert text[k..][1..] == text[k + 1..];
  }

  method ReadSingleQuoted(text: string) returns (r: Result<string, YamlError>)
    requires text != "" && text[0] == '\''
    ensures r == SingleQuotedFrom(text[1..])
  {
    hide SingleQuotedFrom, HasRead, Trim, StripComment, BreakRun, Prepend;
    var out := "";
    var k := 1;
    ghost var whole := SingleQuotedFrom(text[1..]);
    NothingRead(whole);
    while k < |text|
      invariant 1 <= k <= |text| && HasRead(whole, out, SingleQuotedFrom(text[k..]))
    {
      ghost var unread := SingleQuotedFrom(text[k..]);
      ReadEnds(whole, out, unread);
      var c := text[k];
      if c == '\'' {
        SingleQuoteAt(text, k);
        if k + 1 < |text| && text[k + 1] == '\'' {
          ReadMore(whole, out, unread, "'", SingleQuotedFrom(text[k + 2..]));
          out := out + "'";
          k := k + 2;
          continue;
        }
        var after := CutComment(text[k + 1..]);
        if Trim(after) != "" { return Err(TextAfterQuoted); }
        return Ok(out);
      }
      if c == '\n' {
        SingleQuotedBreaksAt(text, k);
        var breaks, next := SkipBreaks(text, k);
        ReadMore(whole, out, unread, FoldedBreaks(breaks), SingleQuotedFrom(text[next..]));
        out := out + (if breaks == 1 then " " else Newlines(breaks - 1));
        k := next;
        continue;
      }
      SingleQuotedCharAt(text, k);
      ReadMore(whole, out, unread, [c], SingleQuotedFrom(text[k + 1..]));
      out := out + [c];
      k := k + 1;
    }
    ReadEnds(whole, out, SingleQuotedFrom(text[k..]));
    NothingUnread(text);
    return Err(Unterminated);
  }

  lemma FlowItemsStep(inner: string, k: nat, current: string, quote: Option<char>)
    requires k < |inner|
    ensures FlowItems(inner[k..], current, quote) ==
            var c, rest := inner[k], inner[k + 1..];
            if quote.Some? then FlowItems(rest, current + [c], if c == quote.value then None else quote)
            else if IsQuote(c) then FlowItems(rest, current + [c], Some(c))
            else if c == ',' then [current] + FlowItems(rest, "", None)
            else FlowItems(rest, current + [c], None)
  {
    assert inner[k..][1..] == inner[k + 1..];
  }

  lemma FlowItemsEnd(current: string, quote: Option<char>)
    ensures FlowItems("", current, quote) == if Trim(current) != "" then [current] else []
  {
  }

  /** The loop of `plain` that cuts the inside of a flow sequence into items. */
  method ReadFlowItems(inner: string) returns (items: seq<string>)
    ensures items == FlowItems(inner, "", None)
  {
    hide FlowItems, Trim, Reached;
    items := [];
    ghost var whole := FlowItems(inner, "", None);
    ReachedStart(whole);
    assert inner[0..] == inner;
    var current := "";
    var quote: Option<char> := None;
    for k := 0 to |inner|
      invariant Reached(whole, items, FlowItems(inner[k..], current, quote))
    {
      var c := inner[k];
      FlowItemsStep(inner, k, current, quote);
      if quote.Some? {
        current := current + [c];
        if c == quote.value { quote := None; }
      } else if IsQuote(c) {
        quote := Some(c);
        current := current + [c];
      } else if c == ',' {
        ReachedMore(whole, items, [current], FlowItems(inner[k + 1..], "", None));
        items := items + [current];
        current := "";
      } else {
        current := current + [c];
      }
    }
    FlowItemsEnd(current, quote);
    assert inner[|inner|..] == "";
    ReachedEnd(whole, items, FlowItems("", current, quote));
    if Trim(current) != "" { items := items + [current]; }
  }

  method ReadPlain(text: string) returns (r: Result<Yaml, YamlError>)
    ensures r == Plain(text)
    decreases |text|, 0
  {
    if text == "{}" { return Ok(Map([])); }
    if text == "[]" { return Ok(Seq([])); }
    if |text| >= 2 && text[0] == '[' && text[|text| - 1] == ']' {
      var inner := text[1..|text| - 1];
      if exists c :: c in inner && IsFlowBracket(c) { return Err(NestedFlow); }
      var items := ReadFlowItems(inner);
      var values := ReadFlowScalars(items, |inner|);
      if values.Err? { return Err(values.error); }
      return Ok(Seq(values.value));
    }
    return PlainScalar(text);
  }

  /** Every item of a flow list as a scalar of its own. */
  method ReadFlowScalars(items: seq<string>, bound: nat) returns (r: Result<seq<Yaml>, YamlError>)
    requires forall item :: item in items ==> |item| <= bound
    ensures r == FlowScalars(items, bound)
    decreases bound, 2
  {
    hide OneLine, Trim;
    var values: seq<Yaml> := [];
    PrependNothing(values, FlowScalars(items, bound));
    for k := 0 to |items|
      invariant FlowScalars(items, bound) == Prepend(values, FlowScalars(items[k..], bound))
    {
      assert items[k..][1..] == items[k + 1..];
      var value := ReadOneLine(Trim(items[k]));
      if value.Err? { return Err(value.error); }
      PrependTwice(values, [value.value], FlowScalars(items[k + 1..], bound));
      values := values + [value.value];
    }
    PrependNothing(values, FlowScalars([], bound));
    return Ok(values);
  }

  method ReadOneLine(text: string) returns (r: Result<Yaml, YamlError>)
    ensures r == OneLine(text)
    decreases |text|, 1
  {
    if text != "" && text[0] == '"' {
      var s := ReadDoubleQuoted(text);
      return if s.Ok? then Ok(Str(s.value)) else Err(s.error);
    }
    if text != "" && text[0] == '\'' {
      var s := ReadSingleQuoted(text);
      return if s.Ok? then Ok(Str(s.value)) else Err(s.error);
    }
    r := ReadPlain(text);
  }

  method ReadInlineScalar(lines: seq<string>) returns (r: Result<Yaml, YamlError>)
    requires |lines| > 0
    ensures r == InlineScalar(lines)
  {
    var first := lines[0];
    if |lines| == 1 {
      r := ReadOneLine(first);
    } else if first != "" && first[0] == '"' {
      JoinStart(lines);
      var s := ReadDoubleQuoted(Join(lines));
      return if s.Ok? then Ok(Str(s.value)) else Err(s.error);
    } else if first != "" && first[0] == '\'' {
      JoinStart(lines);
      var s := ReadSingleQuoted(Join(lines));
      return if s.Ok? then Ok(Str(s.value)) else Err(s.error);
    } else if first != "" && IsIndicator(first[0]) {
      return Err(UnsupportedValue);
    } else {
      var s := FoldLines(lines);
      return Ok(Str(s));
    }
  }

  lemma JoinStart(lines: seq<string>)
    requires |lines| > 0 && lines[0] != ""
    ensures Join(lines) != "" && Join(lines)[0] == lines[0][0]
  {
  }

  lemma FoldBlockStart(lines: seq<string>)
    requires lines != []
    ensures Reached(FoldBlock(lines), lines[0], FoldBlockRest(lines[1..], lines[0]))
  {
  }

  /** One turn of `foldBlock`'s loop. */
  lemma FoldBlockStep(lines: seq<string>, k: nat)
    requires 0 < k < |lines|
    ensures FoldBlockRest(lines[k..], lines[k - 1]) ==
            (if lines[k] == "" then "\n"
             else if MoreIndented(lines[k]) || MoreIndented(lines[k - 1]) then "\n" + lines[k]
             else if lines[k - 1] == "" then lines[k]
             else " " + lines[k])
            + FoldBlockRest(lines[k + 1..], lines[k])
  {
    hide MoreIndented;
    assert lines[k..][1..] == lines[k + 1..];
  }

  method FoldBlockLines(lines: seq<string>) returns (out: string)
    ensures out == FoldBlock(lines)
  {
    hide FoldBlockRest, MoreIndented, Reached;
    out := "";
    for k := 0 to |lines|
      invariant k == 0 ==> out == ""
      invariant k > 0 ==> Reached(FoldBlock(lines), out, FoldBlockRest(lines[k..], lines[k - 1]))
    {
      var line := lines[k];
      if k > 0 {
        FoldBlockStep(lines, k);
        ghost var piece := if line == "" then "\n"
                           else if MoreIndented(line) || MoreIndented(lines[k - 1]) then "\n" + line
                           else if lines[k - 1] == "" then line
                           else " " + line;
        ReachedMore(FoldBlock(lines), out, piece, FoldBlockRest(lines[k + 1..], line));
      }
      if k == 0 {
        FoldBlockStart(lines);
        out := line;
      } else if line == "" {
        out := out + "\n";
      } else if MoreIndented(line) || MoreIndented(lines[k - 1]) {
        out := out + ("\n" + line);
      } else if lines[k - 1] == "" {
        out := out + line;
      } else {
        out := out + (" " + line);
      }
    }
    if lines != [] {
      FoldBlockEnd(lines, out);
    }
  }

  lemma FoldBlockEnd(lines: seq<string>, out: string)
    requires lines != [] && Reached(FoldBlock(lines), out, FoldBlockRest(lines[|lines|..], lines[|lines| - 1]))
    ensures out == FoldBlock(lines)
  {
  }

  method PopBlanks(all: seq<string>) returns (lines: seq<string>, trailing: nat)
    ensures lines == all[..KeptLines(all)] && trailing == |all| - KeptLines(all)
  {
    hide IsBlank, KeptLines;
    lines, trailing := all, 0;
    while |lines| > 0 && IsBlank(lines[|lines| - 1])
      invariant |lines| + trailing == |all| && lines == all[..|lines|]
      invariant KeptLines(lines) == KeptLines(all)
    {
      KeptLinesStep(lines);
      lines := lines[..|lines| - 1];
      trailing := trailing + 1;
    }
    KeptLinesStep(lines);
  }

  // ------------------------------------------------------------ the document

  /** What a method of the document returns and where it leaves the cursor. */
  ghost predicate Agrees<T>(r: Result<T, YamlError>, rest: Rows, outcome: Outcome<T>) {
    match outcome
    case Err(e) => r == Err(e)
    case Ok(parsed) => r == Ok(parsed.value) && rest == parsed.rest
  }

  /** The first `k` rows that follow a flow scalar have given `parts`, the last
      of them `blanks` empty lines not taken yet. */
  ghost predicate HasContinued(all: Rows, parent: nat, isPlain: bool, parts: seq<string>, k: nat, blanks: nat) {
    k <= |all| && Continuation(all, parent, isPlain, 0) == parts + Continuation(all[k..], parent, isPlain, blanks)
  }

  lemma NothingContinued(all: Rows, parent: nat, isPlain: bool)
    ensures HasContinued(all, parent, isPlain, [], 0, 0)
  {
    hide Continuation;
    assert all[0..] == all;
  }

  lemma AllContinued(all: Rows, parent: nat, isPlain: bool, parts: seq<string>, blanks: nat)
    requires HasContinued(all, parent, isPlain, parts, |all|, blanks)
    ensures Continuation(all, parent, isPlain, 0) == parts
  {
    assert all[|all|..] == [];
  }

  /** The row at `k` ends the scalar, is blank, or is one part more of it. */
  lemma ContinueRow(all: Rows, parent: nat, isPlain: bool, parts: seq<string>, k: nat, blanks: nat)
    requires HasContinued(all, parent, isPlain, parts, k, blanks) && k < |all|
    ensures var raw := all[k];
      if IsBlank(raw) then HasContinued(all, parent, isPlain, parts, k + 1, blanks + 1)
      else
        var text := if isPlain then Trim(StripComment(raw)) else Trim(raw);
        if LeadingSpaces(raw) <= parent || (isPlain && text == "") then Continuation(all, parent, isPlain, 0) == parts
        else HasContinued(all, parent, isPlain, parts + (EmptyLines(blanks) + [text]), k + 1, 0)
  {
    hide StripComment, Trim, LeadingSpaces, IsBlank, Continuation, EmptyLines;
    ContinuationStep(all[k..], parent, isPlain, blanks);
    assert all[k..][1..] == all[k + 1..];
    var text := if isPlain then Trim(StripComment(all[k])) else Trim(all[k]);
    var own, more := EmptyLines(blanks) + [text], Continuation(all[k + 1..], parent, isPlain, 0);
    assert parts + (own + more) == parts + own + more;
  }

  /** The first `k` rows of a block scalar have given `lines`. */
  ghost predicate HasCollected(all: Rows, parent: nat, start: Option<nat>, lines: seq<string>, k: nat, content: Option<nat>) {
    k <= |all| && BlockLines(all, parent, start) == lines + BlockLines(all[k..], parent, content)
  }

  lemma NothingCollected(all: Rows, parent: nat, start: Option<nat>)
    ensures HasCollected(all, parent, start, [], 0, start)
  {
    hide BlockLines;
    assert all[0..] == all;
  }

  lemma AllCollected(all: Rows, parent: nat, start: Option<nat>, lines: seq<string>, content: Option<nat>)
    requires HasCollected(all, parent, start, lines, |all|, content)
    ensures BlockLines(all, parent, start) == lines
  {
    assert all[|all|..] == [];
  }

  /** The row at `k` ends the block, or is one line more of it. */
  lemma CollectRow(all: Rows, parent: nat, start: Option<nat>, lines: seq<string>, k: nat, content: Option<nat>)
    requires HasCollected(all, parent, start, lines, k, content) && k < |all|
    ensures var raw, lead := all[k], LeadingSpaces(all[k]);
      if IsBlank(raw) then
        var line := if content.None? then "" else SliceFrom(raw, content.value);
        HasCollected(all, parent, start, lines + [line], k + 1, content)
      else if content.None? && lead <= parent then BlockLines(all, parent, start) == lines
      else
        var column := if content.None? then lead else content.value;
        if lead < column then BlockLines(all, parent, start) == lines
        else HasCollected(all, parent, start, lines + [raw[column..]], k + 1, Some(column))
  {
    hide LeadingSpaces, IsBlank, BlockLines, SliceFrom;
    BlockLinesStep(all[k..], parent, content);
    assert all[k..][1..] == all[k + 1..];
  }

  lemma RowsFrom(rows: array<string>, i: nat, k: nat)
    requires i + k <= rows.Length
    ensures rows[i..][k..] == rows[i + k..]
  {
  }

  class Document {
    const rows: array<string>
    var i: nat

    ghost predicate Valid()
      reads this
    {
      i <= rows.Length
    }

    /** The rows from the cursor on. */
    ghost function Rest(): Rows
      requires Valid()
      reads this, rows
    {
      rows[i..]
    }

    constructor (rows: array<string>)
      ensures Valid() && this.rows == rows && Rest() == rows[..]
    {
      this.rows := rows;
      i := 0;
    }

    method Next() returns (r: Result<Option<Line>, YamlError>)
      requires Valid()
      modifies this`i
      ensures Valid() && old(i) <= i
      ensures match Skip(old(Rest()))
              case Err(e) => r == Err(e)
              case Ok(after) => Rest() == after && r == Ok(if after == [] then None else Some(LineOf(after[0])))
    {
      hide Skip, Info;
      while i < rows.Length
        invariant Valid() && old(i) <= i
        invariant Skip(old(Rest())) == Skip(Rest())
      {
        SkipStep(Rest());
        var line := Info(rows[i]);
        assert Rest()[1..] == rows[i + 1..];
        if line.Err? { return Err(line.error); }
        if line.value.text != "" { return Ok(Some(line.value)); }
        i := i + 1;
      }
      SkipStep(Rest());
      return Ok(None);
    }

    method Continue(parent: nat, isPlain: bool) returns (parts: seq<string>)
      requires Valid()
      modifies this`i
      ensures Valid() && i == old(i) + |parts|
      ensures parts == Continuation(old(Rest()), parent, isPlain, 0)
    {
      hide StripComment, Trim, LeadingSpaces, Continuation, IsBlank, EmptyLines, HasContinued;
      parts := [];
      var pending: seq<string> := [];
      EmptyLinesGrow(0);
      var j := i;
      ghost var all := Rest();
      NothingContinued(all, parent, isPlain);
      while j < rows.Length
        invariant i <= j <= rows.Length && j - i == |parts| + |pending|
        invariant pending == EmptyLines(|pending|)
        invariant HasContinued(all, parent, isPlain, parts, j - i, |pending|)
        modifies {}
      {
        var raw := rows[j];
        assert raw == all[j - i];
        ContinueRow(all, parent, isPlain, parts, j - i, |pending|);
        EmptyLinesGrow(|pending|);
        if IsBlank(raw) {
          pending := pending + [""];
          j := j + 1;
          continue;
        }
        var lead := LeadingSpaces(raw);
        if lead <= parent { break; }
        var uncommented := CutComment(raw);
        var text := if isPlain then Trim(uncommented) else Trim(raw);
        if isPlain && text == "" { break; }
        parts := parts + (pending + [text]);
        pending := [];
        EmptyLinesGrow(0);
        j := j + 1;
      }
      if j == rows.Length {
        AllContinued(all, parent, isPlain, parts, |pending|);
      }
      i := j - |pending|;
    }

    /** The loop of `blockScalar` over the rows at the cursor. */
    method CollectBlock(parent: nat, start: Option<nat>) returns (lines: seq<string>)
      requires Valid()
      ensures lines == BlockLines(Rest(), parent, start)
    {
      hide LeadingSpaces, IsBlank, BlockLines, SliceFrom, HasCollected;
      var contentIndent: Option<nat> := start;
      lines := [];
      var j := i;
      ghost var all := Rest();
      NothingCollected(all, parent, start);
      while j < rows.Length
        invariant i <= j <= rows.Length
        invariant HasCollected(all, parent, start, lines, j - i, contentIndent)
      {
        var raw := rows[j];
        assert raw == all[j - i];
        CollectRow(all, parent, start, lines, j - i, contentIndent);
        if IsBlank(raw) {
          lines := lines + [if contentIndent.None? then "" else SliceFrom(raw, contentIndent.value)];
          j := j + 1;
          continue;
        }
        var lead := LeadingSpaces(raw);
        if contentIndent.None? {
          if lead <= parent { return; }
          contentIndent := Some(lead);
        }
        if lead < contentIndent.value { return; }
        lines := lines + [raw[contentIndent.value..]];
        j := j + 1;
      }
      AllCollected(all, parent, start, lines, contentIndent);
    }

    method ReadBlock(header: string, parent: nat) returns (r: Result<Yaml, YamlError>)
      requires Valid()
      modifies this`i
      ensures Valid() && old(i) <= i
      ensures Agrees(r, Rest(), BlockScalar(old(Rest()), header, parent))
    {
      hide StripComment, Trim, ParseHeader, BlockLines, KeptLines, Chomped, Body, FoldBlock, Join, IsBlank, BlockScalar;
      ghost var was := Rest();
      var uncommented := CutComment(header);
      var found := ParseHeader(Trim(uncommented));
      if found.None? {
        BadHeader(was, header, parent);
        return Err(BadBlockHeader);
      }
      var h := found.value;
      var all := CollectBlock(parent, if h.indicator > 0 then Some(parent + h.indicator) else None);
      var j := i + |all|;
      var lines, trailing := PopBlanks(all);
      BlockScalarIs(was, header, parent, h, all, lines);
      RowsFrom(rows, i, |lines|);
      i := j - trailing;
      BodyIs(lines, h.folded);
      var body := "";
      if |lines| > 0 {
        if h.folded { body := FoldBlockLines(lines); } else { body := Join(lines); }
      }
      return Ok(Str(Chomped(body, |lines| == 0, trailing, h.chomp)));
    }

    method ReadValue(text: string, parent: nat, inMap: bool) returns (r: Result<Yaml, YamlError>)
      requires Valid()
      modifies this`i, rows
      ensures Valid() && old(i) <= i
      ensures Agrees(r, Rest(), Value(old(Rest()), text, parent, inMap))
      decreases rows.Length - i, HeadSize(Rest()), 3
    {
      hide Info, HasContent, LineOf, IsItem, HeadSize, Node, SequenceFrom, Skip, InlineScalar, BlockScalar,
        Continuation;
      if text == "" {
        SkipIsIdempotent(Rest());
        var nx := Next();
        if nx.Err? { return Err(nx.error); }
        if nx.value.Some? && nx.value.value.indent > parent {
          r := ReadNode(nx.value.value.indent);
          return;
        }
        if inMap && nx.value.Some? && nx.value.value.indent == parent && IsItem(nx.value.value.text) {
          r := ReadSequence(parent);
          return;
        }
        return Ok(Null);
      }
      if text[0] == '|' || text[0] == '>' {
        r := ReadBlock(text, parent);
        return;
      }
      var parts := Continue(parent, !IsQuote(text[0]));
      r := ReadInlineScalar([text] + parts);
      assert Rest() == old(Rest())[|parts|..];
    }

    method ReadMap(indent: nat) returns (r: Result<Yaml, YamlError>)
      requires Valid()
      modifies this`i, rows
      ensures Valid() && old(i) <= i
      ensures Agrees(r, Rest(), MapFrom(old(Rest()), indent, []))
      decreases rows.Length - i, HeadSize(Rest()), 1
    {
      hide Info, HasContent, LineOf, IsItem, MapEntry, MapFrom, HeadSize, Skip;
      var out: seq<Entry> := [];
      while true
        invariant Valid() && old(i) <= i
        invariant MapFrom(old(Rest()), indent, []) == MapFrom(Rest(), indent, out)
        invariant Within(Rest(), old(Rest()))
        decreases rows.Length - i
      {
        MapStep(Rest(), indent, out);
        var next := Next();
        if next.Err? { return Err(next.error); }
        if next.value.None? { return Ok(Map(out)); }
        var line := next.value.value;
        if line.indent < indent || IsItem(line.text) { return Ok(Map(out)); }
        if line.indent > indent { return Err(UnexpectedIndentation); }
        var entry := ReadEntry(line, indent, out);
        if entry.Err? { return Err(entry.error); }
        out := out + [entry.value];
      }
    }

    /** The body of `map`'s loop, reading the entry on the cursor's row. */
    method ReadEntry(line: Line, indent: nat, out: seq<Entry>) returns (r: Result<Entry, YamlError>)
      requires Valid() && i < rows.Length && HasContent(rows[i]) && line == LineOf(rows[i])
      modifies this`i, rows
      ensures Valid() && old(i) <= i
      ensures Agrees(r, Rest(), MapEntry(old(Rest()), indent, out))
      decreases rows.Length - i, HeadSize(Rest()), 0
    {
      assert Rest()[0] == rows[i] && Rest()[1..] == rows[i + 1..];
      hide Info, MatchKey, WrittenValue, KeyText, OneLine, HasKey, Trim, StripComment, LeadingSpaces, Value, HeadSize;
      var found := MatchKey(line.text);
      if found.None? { return Err(ExpectedKey); }
      KeyIsNoCollection(line.text);
      var scalar := ReadOneLine(found.value.key);
      if scalar.Err? { return Err(scalar.error); }
      var key := KeyText(scalar.value);
      if HasKey(out, key) { return Err(DuplicateKey); }
      var written := WrittenValue(line, found.value);
      i := i + 1;
      var uncommented := CutComment(written);
      var text := if written != "" && IsQuote(written[0]) then written else Trim(uncommented);
      var value := ReadValue(text, indent, true);
      if value.Err? { return Err(value.error); }
      return Ok(Entry(key, value.value));
    }

    method ReadSequence(indent: nat) returns (r: Result<Yaml, YamlError>)
      requires Valid()
      modifies this`i, rows
      ensures Valid() && old(i) <= i
      ensures Agrees(r, Rest(), SequenceFrom(old(Rest()), indent, []))
      decreases rows.Length - i, HeadSize(Rest()), 1
    {
      hide Info, HasContent, LineOf, IsItem, Item, SequenceFrom, HeadSize, Skip;
      var out: seq<Yaml> := [];
      while true
        invariant Valid() && old(i) <= i
        invariant SequenceFrom(old(Rest()), indent, []) == SequenceFrom(Rest(), indent, out)
        invariant Within(Rest(), old(Rest()))
        decreases rows.Length - i, HeadSize(Rest())
      {
        SequenceStep(Rest(), indent, out);
        var next := Next();
        if next.Err? { return Err(next.error); }
        if next.value.None? { return Ok(Seq(out)); }
        var line := next.value.value;
        if line.indent < indent || !IsItem(line.text) { return Ok(Seq(out)); }
        if line.indent > indent { return Err(UnexpectedIndentation); }
        var item := ReadItem(line, indent);
        if item.Err? { return Err(item.error); }
        out := out + [item.value];
      }
    }

    /** Overwrites the row of an item, its dash left out. */
    method Overwrite(line: Line)
      requires Valid() && i < rows.Length && HasContent(rows[i]) && line == LineOf(rows[i]) && IsItem(line.text)
      modifies rows
      ensures Valid() && Rest() == [WithoutDash(line)] + old(Rest())[1..]
    {
      hide HasContent, LineOf, IsItem, WithoutDash;
      rows[i] := WithoutDash(line);
    }

    /** The body of `sequence`'s loop, reading the item on the cursor's row. */
    method ReadItem(line: Line, indent: nat) returns (r: Result<Yaml, YamlError>)
      requires Valid() && i < rows.Length && HasContent(rows[i]) && line == LineOf(rows[i]) && IsItem(line.text)
      modifies this`i, rows
      ensures Valid() && old(i) <= i
      ensures Agrees(r, Rest(), Item(old(Rest()), indent))
      decreases rows.Length - i, HeadSize(Rest()), 0
    {
      assert Rest()[0] == rows[i] && Rest()[1..] == rows[i + 1..];
      hide Info, HasContent, LineOf, IsItem, OpensMap, ItemRest, ChildIndent, WithoutDash, ItemValue, Trim,
        StripComment, HeadSize, Value, MapFrom, Skip, Item;
      ItemStep(Rest(), indent);
      var rest := ItemRest(line.text);
      if rest != "" && IsItem(rest) { return Err(NestedInlineSequence); }
      if rest != "" && OpensMap(rest) {
        RewriteShrinks(Rest());
        Overwrite(line);
        r := ReadMap(ChildIndent(line));
        return;
      }
      i := i + 1;
      var text := "";
      if rest != "" {
        var written := ItemValue(line);
        var uncommented := CutComment(written);
        text := if written != "" && IsQuote(written[0]) then written else Trim(uncommented);
      }
      assert Item(old(Rest()), indent) == Value(Rest(), text, indent, false);
      r := ReadValue(text, indent, false);
    }

    method ReadNode(indent: nat) returns (r: Result<Yaml, YamlError>)
      requires Valid() && Rest() != [] && Skip(Rest()) == Ok(Rest())
      modifies this`i, rows
      ensures Valid() && old(i) <= i
      ensures Agrees(r, Rest(), Node(old(Rest()), indent))
      decreases rows.Length - i, HeadSize(Rest()), 2
    {
      var line := Next();
      if IsItem(line.value.value.text) {
        r := ReadSequence(indent);
      } else {
        r := ReadMap(indent);
      }
    }

    /** `parseDocument`; a successful reading has consumed every row. */
    method Read() returns (r: Result<Option<Yaml>, YamlError>)
      requires Valid() && i == 0
      modifies this`i, rows
      ensures Valid()
      ensures r == ParseDocument(old(rows[..]))
      ensures r.Ok? ==> i == rows.Length
    {
      assert Rest() == rows[..];
      var first := Next();
      if first.Err? { return Err(first.error); }
      if first.value.None? { return Ok(None); }
      SkipIsIdempotent(old(Rest()));
      var result := ReadNode(first.value.value.indent);
      if result.Err? { return Err(result.error); }
      var left := Next();
      if left.Err? { return Err(left.error); }
      if left.value.Some? { return Err(UnexpectedIndentation); }
      return Ok(Some(result.value));
    }
  }

  // -------------------------------------------------------------- the stream

  method ReadDocuments(text: string) returns (r: Result<seq<Rows>, YamlError>)
    ensures r == Documents(Split(text), [])
  {
    var lines := Split(text);
    var documents: seq<Rows> := [];
    var last: Rows := [];
    PrependNothing(documents, Documents(lines, []));
    for k := 0 to |lines|
      invariant Documents(lines, []) == Prepend(documents, Documents(lines[k..], last))
    {
      var raw := lines[k];
      assert lines[k..][1..] == lines[k + 1..];
      if IsSeparator(raw) {
        PrependTwice(documents, [last], Documents(lines[k + 1..], []));
        documents := documents + [last];
        last := [];
      } else if IsForbiddenMarker(raw) {
        return Err(UnsupportedMarker);
      } else {
        last := last + [WithoutReturn(raw)];
      }
    }
    return Ok(documents + [last]);
  }

  method ReadYamlStream(text: string) returns (r: Result<seq<Yaml>, YamlError>)
    ensures r == ParseYamlStream(text)
  {
    hide ParseDocument, Documents, Split;
    var documents := ReadDocuments(text);
    if documents.Err? { return Err(documents.error); }
    var values: seq<Yaml> := [];
    PrependNothing(values, ParseDocuments(documents.value));
    for k := 0 to |documents.value|
      invariant ParseDocuments(documents.value) == Prepend(values, ParseDocuments(documents.value[k..]))
    {
      assert documents.value[k..][1..] == documents.value[k + 1..];
      var content := documents.value[k];
      var rows := new string[|content|](j requires 0 <= j < |content| => content[j]);
      assert rows[..] == content;
      var document := new Document(rows);
      var doc := document.Read();
      if doc.Err? { return Err(doc.error); }
      var read := if doc.value.Some? then [doc.value.value] else [];
      PrependTwice(values, read, ParseDocuments(documents.value[k + 1..]));
      values := values + read;
    }
    PrependNothing(values, ParseDocuments([]));
    return Ok(values);
  }
}
