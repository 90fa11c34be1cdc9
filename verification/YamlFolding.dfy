/**
 Multi-line flow scalars of scripts/check-kubernetes.mjs: whether a text is
 written plain, in double quotes or in single quotes, its lines fold to the
 same string.
 */
module YamlFolding {
  import opened Text
  import opened YamlScalars

  /** The quoted reader of a quote character, after its opening quote. */
  function QuotedFrom(s: string, quote: char): Result<string, YamlError>
    requires IsQuote(quote)
  {
    if quote == '"' then DoubleQuotedFrom(s) else SingleQuotedFrom(s)
  }

  /** A line both quoted styles take as it is. */
  predicate IsRawLine(line: string) {
    forall c :: c in line ==> !IsQuote(c) && c != '\\' && c != '\n'
  }

  lemma RawChar(c: char, rest: string, quote: char)
    requires IsQuote(quote) && !IsQuote(c) && c != '\\' && c != '\n'
    ensures QuotedFrom([c] + rest, quote) == Prepend([c], QuotedFrom(rest, quote))
  {
    hide Prepend;
    assert ([c] + rest)[1..] == rest;
  }

  lemma {:induction false} RawLine(line: string, rest: string, quote: char)
    requires IsQuote(quote) && IsRawLine(line)
    ensures QuotedFrom(line + rest, quote) == Prepend(line, QuotedFrom(rest, quote))
  {
    hide QuotedFrom, Prepend;
    if line == "" {
      assert line + rest == rest;
      PrependNothing(line, QuotedFrom(rest, quote));
    } else {
      assert line[0] in line;
      assert line + rest == [line[0]] + (line[1..] + rest);
      RawChar(line[0], line[1..] + rest, quote);
      assert forall c :: c in line[1..] ==> c in line;
      RawLine(line[1..], rest, quote);
      PrependTwice([line[0]], line[1..], QuotedFrom(rest, quote));
      assert [line[0]] + line[1..] == line;
    }
  }

  lemma Breaks(n: nat, rest: string, quote: char)
    requires IsQuote(quote) && n > 0 && rest != "" && rest[0] != '\n'
    ensures QuotedFrom(Newlines(n) + rest, quote) == Prepend(FoldedBreaks(n), QuotedFrom(rest, quote))
  {
    assert BreakRun(rest) == 0;
    hide Prepend, FoldedBreaks, BreakRun;
    BreakRunIs(n, rest);
    assert (Newlines(n) + rest)[0] == '\n';
    assert (Newlines(n) + rest)[n..] == rest;
  }

  lemma Close(quote: char)
    requires IsQuote(quote)
    ensures QuotedFrom([quote], quote) == Ok("")
  {
    assert [quote][1..] == "";
  }

  /** `n` line breaks, then the lines, then the quote. */
  function Unread(lines: seq<string>, n: nat, quote: char): string
    requires |lines| > 0
  {
    Newlines(n) + (Join(lines) + [quote])
  }

  lemma {:induction false} RestFolds(lines: seq<string>, blanks: nat, quote: char)
    requires IsQuote(quote) && |lines| > 0 && lines[|lines| - 1] != ""
    requires forall line :: line in lines ==> IsRawLine(line)
    ensures QuotedFrom(Unread(lines, blanks + 1, quote), quote) == Ok(FoldRest(lines, blanks))
    decreases |lines|, 1
  {
    hide QuotedFrom, IsRawLine, Prepend;
    if lines[0] == "" {
      assert Newlines(blanks + 1) + ("" + "\n" + Join(lines[1..]) + [quote])
          == Newlines(blanks + 2) + (Join(lines[1..]) + [quote]);
      RestFolds(lines[1..], blanks + 1, quote);
    } else {
      var rest := Join(lines) + [quote];
      RawStart(lines[0]);
      FirstOfJoin(lines);
      Breaks(blanks + 1, rest, quote);
      LineThenRest(lines, quote);
      PrependOk(FoldedBreaks(blanks + 1), lines[0] + FoldRest(lines[1..], 0));
      assert FoldRest(lines, blanks) == FoldedBreaks(blanks + 1) + (lines[0] + FoldRest(lines[1..], 0));
    }
  }

  lemma PrependOk(a: string, b: string)
    ensures Prepend(a, Result<string, YamlError>.Ok(b)) == Ok(a + b)
  {
  }

  lemma RawStart(line: string)
    requires IsRawLine(line) && line != ""
    ensures line[0] != '\n'
  {
    assert line[0] in line;
  }

  lemma FirstOfJoin(lines: seq<string>)
    requires |lines| > 0 && lines[0] != ""
    ensures Join(lines) != "" && Join(lines)[0] == lines[0][0]
  {
  }

  /** A first line that is not empty, then the rest folded. */
  lemma {:induction false} LineThenRest(lines: seq<string>, quote: char)
    requires IsQuote(quote) && |lines| > 0 && (|lines| == 1 || lines[|lines| - 1] != "")
    requires forall line :: line in lines ==> IsRawLine(line)
    ensures QuotedFrom(Join(lines) + [quote], quote) == Ok(lines[0] + FoldRest(lines[1..], 0))
    decreases |lines|, 0
  {
    hide QuotedFrom, IsRawLine, Prepend;
    if |lines| == 1 {
      RawLine(lines[0], [quote], quote);
      Close(quote);
      PrependOk(lines[0], "");
    } else {
      assert Newlines(1) == "\n";
      assert Join(lines) + [quote] == lines[0] + Unread(lines[1..], 1, quote);
      RawLine(lines[0], Unread(lines[1..], 1, quote), quote);
      RestFolds(lines[1..], 0, quote);
      PrependOk(lines[0], FoldRest(lines[1..], 0));
    }
  }

  /** The lines of a quoted scalar as the reader gets them. */
  function QuotedLines(lines: seq<string>, quote: char): (r: seq<string>)
    requires |lines| > 0
    ensures |r| == |lines|
  {
    if |lines| == 1 then [[quote] + lines[0] + [quote]]
    else [[quote] + lines[0]] + lines[1..|lines| - 1] + [lines[|lines| - 1] + [quote]]
  }

  lemma {:induction false} JoinQuotedLines(lines: seq<string>, quote: char)
    requires |lines| > 1
    ensures Join(QuotedLines(lines, quote)) == [quote] + (Join(lines) + [quote])
  {
    var q := QuotedLines(lines, quote);
    JoinLast(lines, quote);
    assert q[1..] == lines[1..][..|lines| - 2] + [lines[|lines| - 1] + [quote]];
    assert Join(q) == [quote] + lines[0] + "\n" + Join(q[1..]);
    assert [quote] + lines[0] + "\n" + (Join(lines[1..]) + [quote])
        == [quote] + (lines[0] + "\n" + Join(lines[1..]) + [quote]);
    JoinLast(lines[1..], quote);
  }

  lemma {:induction false} JoinLast(lines: seq<string>, quote: char)
    requires |lines| > 0
    ensures Join(lines[..|lines| - 1] + [lines[|lines| - 1] + [quote]]) == Join(lines) + [quote]
  {
    var q := lines[..|lines| - 1] + [lines[|lines| - 1] + [quote]];
    if |lines| == 1 {
    } else {
      assert q[1..] == lines[1..][..|lines| - 2] + [lines[1..][|lines| - 2] + [quote]];
      JoinLast(lines[1..], quote);
      assert lines[0] + "\n" + (Join(lines[1..]) + [quote]) == lines[0] + "\n" + Join(lines[1..]) + [quote];
    }
  }

  /** Lines free of quotes and backslashes read the same in both quoted styles;
      several lines that start with a character that may start a plain scalar read
      the same in the plain one too. */
  lemma StylesAgree(lines: seq<string>, quote: char)
    requires IsQuote(quote) && |lines| > 0 && (|lines| == 1 || lines[|lines| - 1] != "")
    requires forall line :: line in lines ==> IsRawLine(line)
    ensures InlineScalar(QuotedLines(lines, quote)) == Ok(Str(FoldFlow(lines)))
    ensures |lines| > 1 && (lines[0] == "" || !IsIndicator(lines[0][0])) ==>
      InlineScalar(lines) == Ok(Str(FoldFlow(lines)))
  {
    hide IsRawLine, Join, FoldRest, DoubleQuotedFrom, SingleQuotedFrom;
    LineThenRest(lines, quote);
    var q := QuotedLines(lines, quote);
    if |lines| == 1 {
      OneRawLine(lines[0]);
      assert lines == [lines[0]];
      assert q[0][1..] == lines[0] + [quote];
    } else {
      JoinQuotedLines(lines, quote);
      assert q[0] == [quote] + lines[0];
      assert Join(q)[1..] == Join(lines) + [quote];
      if lines[0] != "" {
        RawStartNoQuote(lines[0]);
      }
    }
  }

  lemma OneRawLine(line: string)
    ensures Join([line]) == line && FoldFlow([line]) == line
  {
  }

  lemma RawStartNoQuote(line: string)
    requires IsRawLine(line) && line != ""
    ensures !IsQuote(line[0])
  {
    assert line[0] in line;
  }
}
