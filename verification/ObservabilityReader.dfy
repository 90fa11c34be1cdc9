/**
 The reader of scripts/check-observability.mjs in its own form: it fills a list
 of lines, then walks it with one index and overwrites a line in place. Every
 method is proved against the functions of ObservabilityYaml.
 */
module ObservabilityReader {
  import opened Text
  import opened YamlScalars
  import opened ObservabilityYaml

  // ------------------------------------------------------- character loops

  lemma KeptStep(line: string, k: nat, quote: Option<char>, atBreak: bool)
    requires k < |line|
    ensures |Kept(line[k..], quote, atBreak)|
         == if quote.None? && line[k] == '#' && atBreak then 0
            else
              1 + |Kept(line[k + 1..],
                        if quote.Some? && line[k] == quote.value then None
                        else if quote.None? && IsQuote(line[k]) then Some(line[k])
                        else quote,
                        IsSpace(line[k]))|
  {
    hide IsSpace;
    assert line[k..][1..] == line[k + 1..];
    VisibleQuote(line[k]);
  }

  lemma VisibleQuote(c: char)
    ensures IsQuote(c) ==> !IsSpace(c)
  {
  }

  lemma KeptEnd(quote: Option<char>, atBreak: bool)
    ensures Kept("", quote, atBreak) == ""
  {
  }

  method DropComment(line: string) returns (r: string)
    ensures r == WithoutComment(line)
  {
    hide Kept, IsSpace;
    var quote: Option<char> := None;
    for k := 0 to |line|
      invariant |WithoutComment(line)| == k + |Kept(line[k..], quote, k == 0 || IsSpace(line[k - 1]))|
    {
      var c := line[k];
      KeptStep(line, k, quote, k == 0 || IsSpace(line[k - 1]));
      if quote.Some? {
        if c == quote.value { quote := None; }
      } else if IsQuote(c) {
        quote := Some(c);
      } else if c == '#' && (k == 0 || IsSpace(line[k - 1])) {
        return line[..k];
      }
    }
    KeptEnd(quote, |line| == 0 || IsSpace(line[|line| - 1]));
    return line;
  }

  method CutFlow(inner: string) returns (r: Result<seq<string>, YamlError>)
    ensures r == SplitFlow(inner, "", None)
  {
    hide Trim, IsFlowBracket;
    var items: seq<string> := [];
    var current := "";
    var quote: Option<char> := None;
    PrependNothing(items, SplitFlow(inner, "", None));
    for k := 0 to |inner|
      invariant SplitFlow(inner, "", None) == Prepend(items, SplitFlow(inner[k..], current, quote))
    {
      var c := inner[k];
      assert inner[k..][1..] == inner[k + 1..];
      PrependNothing(items, SplitFlow(inner[k..], current, quote));
      if quote.Some? {
        current := current + [c];
        if c == quote.value { quote := None; }
      } else if IsQuote(c) {
        quote := Some(c);
        current := current + [c];
      } else if c == ',' {
        PrependTwice(items, [current], SplitFlow(inner[k + 1..], "", None));
        items := items + [current];
        current := "";
      } else if IsFlowBracket(c) {
        return Err(NestedFlow);
      } else {
        current := current + [c];
      }
    }
    PrependNothing(items, SplitFlow("", current, quote));
    if Trim(current) != "" { items := items + [current]; }
    return Ok(items);
  }

  method ReadScalar(value: string) returns (r: Result<Yaml, YamlError>)
    ensures r == Scalar(value)
    decreases |value|
  {
    hide Trim, SplitFlow, Word;
    if value != "" && value[0] == '[' {
      if value[|value| - 1] != ']' { return Err(Unterminated); }
      var items := CutFlow(value[1..|value| - 1]);
      if items.Err? { return Err(items.error); }
      var all := items.value;
      var bound := |value| - 2;
      var values: seq<Yaml> := [];
      PrependNothing(values, Scalars(all, bound));
      for k := 0 to |all|
        invariant Scalars(all, bound) == Prepend(values, Scalars(all[k..], bound))
      {
        assert all[k..][1..] == all[k + 1..];
        var item := ReadScalar(Trim(all[k]));
        if item.Err? { return Err(item.error); }
        PrependTwice(values, [item.value], Scalars(all[k + 1..], bound));
        values := values + [item.value];
      }
      PrependNothing(values, Scalars([], bound));
      return Ok(Seq(values));
    }
    if value != "" && IsQuote(value[0]) {
      if |value| < 2 || value[|value| - 1] != value[0] { return Err(Unterminated); }
      return Ok(Str(value[1..|value| - 1]));
    }
    return Word(value);
  }

  method CollectLines(rows: seq<string>) returns (r: Result<Lines, YamlError>)
    ensures r == Filtered(rows)
  {
    hide Trim, TrimEnd, TrimStart, WithoutComment, Leading;
    var lines: Lines := [];
    PrependNothing(lines, Filtered(rows));
    for k := 0 to |rows|
      invariant Filtered(rows) == Prepend(lines, Filtered(rows[k..]))
    {
      assert rows[k..][1..] == rows[k + 1..];
      PrependNothing(lines, Filtered(rows[k..]));
      var uncommented := DropComment(rows[k]);
      var line := TrimEnd(uncommented);
      if Trim(line) == "" { continue; }
      if '\t' in Leading(line) { return Err(TabIndentation); }
      if Trim(line) == "---" || Trim(line) == "..." { return Err(UnsupportedMarker); }
      var read := Line(|Leading(line)|, Trim(line));
      PrependTwice(lines, [read], Filtered(rows[k + 1..]));
      lines := lines + [read];
    }
    PrependNothing(lines, Filtered([]));
    return Ok(lines);
  }

  // --------------------------------------------------------------- the lines

  ghost predicate Agrees<T>(r: Result<T, YamlError>, rest: Lines, outcome: Outcome<T>) {
    match outcome
    case Err(e) => r == Err(e)
    case Ok(parsed) => r == Ok(parsed.value) && rest == parsed.rest
  }

  class Reader {
    const lines: array<Line>
    var i: nat

    ghost predicate Valid()
      reads this
    {
      i <= lines.Length
    }

    ghost function Rest(): Lines
      requires Valid()
      reads this, lines
    {
      lines[i..]
    }

    constructor (lines: array<Line>)
      ensures Valid() && this.lines == lines && Rest() == lines[..]
    {
      this.lines := lines;
      i := 0;
    }

    /** A successful reading has consumed every line. */
    method Read() returns (r: Result<Yaml, YamlError>)
      requires Valid() && i == 0
      modifies this`i, lines
      ensures Valid()
      ensures r == ParseLines(old(lines[..]))
      ensures r.Ok? ==> i == lines.Length
    {
      hide Block;
      assert Rest() == lines[..];
      if lines.Length == 0 { return Ok(Null); }
      var result := ReadBlock(lines[0].indent);
      if result.Err? { return Err(result.error); }
      assert |Rest()| == lines.Length - i;
      if i != lines.Length { return Err(UnexpectedIndentation); }
      return Ok(result.value);
    }

    method ReadBlock(indent: nat) returns (r: Result<Yaml, YamlError>)
      requires Valid() && i < lines.Length && lines[i].indent == indent
      modifies this`i, lines
      ensures Valid() && old(i) <= i
      ensures Agrees(r, Rest(), Block(old(Rest()), indent))
      decreases lines.Length - i, TextSize(Rest()), 2
    {
      assert Rest()[0] == lines[i];
      if IsItem(lines[i].text) {
        r := ReadSequence(indent);
      } else {
        r := ReadMap(indent);
      }
    }

    method ReadMap(indent: nat) returns (r: Result<Yaml, YamlError>)
      requires Valid()
      modifies this`i, lines
      ensures Valid() && old(i) <= i
      ensures Agrees(r, Rest(), MapFrom(old(Rest()), indent, []))
      decreases lines.Length - i, TextSize(Rest()), 0
    {
      hide MatchEntry, IsItem, Scalar, KeyText, EntryValue, TextSize;
      var out: seq<Entry> := [];
      while i < lines.Length && lines[i].indent == indent && !IsItem(lines[i].text)
        invariant Valid() && old(i) <= i
        invariant MapFrom(old(Rest()), indent, []) == MapFrom(Rest(), indent, out)
        invariant i == old(i) ==> Rest() == old(Rest())
        decreases lines.Length - i
      {
        assert Rest()[0] == lines[i] && Rest()[1..] == lines[i + 1..];
        var found := MatchEntry(lines[i].text);
        if found.None? { return Err(ExpectedKey); }
        EntryKeyIsNoFlow(lines[i].text);
        var scalar := ReadScalar(found.value.key);
        if scalar.Err? { return Err(scalar.error); }
        var key := KeyText(scalar.value);
        if HasKey(out, key) { return Err(DuplicateKey); }
        i := i + 1;
        var value := ReadEntryValue(indent, found.value.rest);
        if value.Err? { return Err(value.error); }
        out := out + [Entry(key, value.value)];
      }
      return Ok(Map(out));
    }

    method ReadEntryValue(indent: nat, written: Option<string>) returns (r: Result<Yaml, YamlError>)
      requires Valid()
      modifies this`i, lines
      ensures Valid() && old(i) <= i
      ensures Agrees(r, Rest(), EntryValue(old(Rest()), indent, written))
      decreases lines.Length - i, TextSize(Rest()), 3
    {
      hide IsItem, Scalar, Block, SequenceFrom, TextSize;
      if written.Some? && written.value != "" {
        r := ReadScalar(written.value);
      } else if i < lines.Length && lines[i].indent > indent {
        r := ReadBlock(lines[i].indent);
      } else if i < lines.Length && lines[i].indent == indent && IsItem(lines[i].text) {
        r := ReadSequence(indent);
      } else {
        r := Ok(Null);
      }
    }

    method ReadSequence(indent: nat) returns (r: Result<Yaml, YamlError>)
      requires Valid()
      modifies this`i, lines
      ensures Valid() && old(i) <= i
      ensures Agrees(r, Rest(), SequenceFrom(old(Rest()), indent, []))
      decreases lines.Length - i, TextSize(Rest()), 1
    {
      hide IsItem, Item, TextSize;
      var out: seq<Yaml> := [];
      while i < lines.Length && lines[i].indent == indent && IsItem(lines[i].text)
        invariant Valid() && old(i) <= i
        invariant SequenceFrom(old(Rest()), indent, []) == SequenceFrom(Rest(), indent, out)
        invariant i == old(i) ==> Rest() == old(Rest())
        decreases lines.Length - i
      {
        assert Rest()[0] == lines[i];
        var item := ReadItem(indent);
        if item.Err? { return Err(item.error); }
        out := out + [item.value];
      }
      return Ok(Seq(out));
    }

    /** The body of `sequence`'s loop. */
    method ReadItem(indent: nat) returns (r: Result<Yaml, YamlError>)
      requires Valid() && i < lines.Length && lines[i].indent == indent && IsItem(lines[i].text)
      modifies this`i, lines
      ensures Valid() && old(i) <= i
      ensures Agrees(r, Rest(), Item(old(Rest()), indent))
      decreases lines.Length - i, TextSize(Rest()), 0
    {
      hide IsItem, ItemRest, MatchEntry, Scalar, Block, MapFrom, IndexAfterDash;
      assert Rest()[0] == lines[i] && Rest()[1..] == lines[i + 1..];
      var rest := ItemRest(lines[i].text);
      if rest == "" {
        i := i + 1;
        if i >= lines.Length || lines[i].indent <= indent { return Err(EmptySequenceItem); }
        r := ReadBlock(lines[i].indent);
      } else if MatchEntry(rest).Some? {
        var line := WithoutDash(lines[i]);
        lines[i] := line;
        assert Rest() == [line] + old(Rest())[1..];
        r := ReadMap(line.indent);
      } else {
        r := ReadScalar(rest);
        i := i + 1;
      }
    }
  }

  /** `parseYaml`. */
  method ReadYaml(text: string) returns (r: Result<Yaml, YamlError>)
    ensures r == ParseYaml(text)
  {
    hide Filtered, ParseLines, Split;
    var collected := CollectLines(Split(text));
    if collected.Err? { return Err(collected.error); }
    var content := collected.value;
    var lines := new Line[|content|](j requires 0 <= j < |content| => content[j]);
    assert lines[..] == content;
    var reader := new Reader(lines);
    r := reader.Read();
  }
}
