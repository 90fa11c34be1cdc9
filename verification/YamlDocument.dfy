/**
 The block level of the strict YAML reader of scripts/check-kubernetes.mjs
 (`parseDocument` and `parseYamlStream`). The reader's cursor and rows are the
 list of rows not read yet: moving the cursor drops rows, and the in-place
 rewrite of a `- key:` row replaces the first one.
 */
module YamlDocument {
  import opened Text
  import opened YamlScalars

  type Rows = seq<string>

  /** A value and the rows left after it. */
  datatype Parsed<+T> = Parsed(value: T, rest: Rows)

  type Outcome<+T> = Result<Parsed<T>, YamlError>

  datatype Line = Line(raw: string, indent: nat, text: string)

  /** `info`: a row's indentation and its text without comment. */
  function Info(raw: string): (r: Result<Line, YamlError>)
    ensures r.Ok? ==> r.value.raw == raw && r.value.indent == LeadingSpaces(raw)
    ensures r.Ok? ==> r.value.text == Trim(StripComment(raw))
  {
    var indent := LeadingSpaces(raw);
    var text := Trim(StripComment(raw));
    if text != "" && indent < |raw| && raw[indent] == '\t' then Err(TabIndentation)
    else Ok(Line(raw, indent, text))
  }

  predicate IsItem(text: string) {
    text == "-" || StartsWith(text, "- ")
  }

  /** A row `next` stops at. */
  predicate HasContent(raw: string) {
    Info(raw).Ok? && Info(raw).value.text != ""
  }

  function LineOf(raw: string): Line
    requires HasContent(raw)
  {
    Info(raw).value
  }

  /** What is left of a row after its indentation. */
  function HeadSize(rows: Rows): nat {
    if rows == [] then 0 else |rows[0]| - LeadingSpaces(rows[0])
  }

  /** Reading made progress: a row was consumed, or what follows the
      indentation of the row under the cursor became shorter. */
  predicate Shrinks(after: Rows, before: Rows) {
    |after| < |before| || (|after| == |before| && HeadSize(after) < HeadSize(before))
  }

  /** `after` can be what is left of `before`: rows were consumed, or the row
      under the cursor was rewritten without growing past its indentation. */
  predicate Within(after: Rows, before: Rows) {
    |after| < |before| || (|after| == |before| && HeadSize(after) <= HeadSize(before))
  }

  /** `next`: the rows from the first one with content on. */
  function Skip(rows: Rows): (r: Result<Rows, YamlError>)
    ensures r.Ok? ==> |r.value| <= |rows| && (|r.value| == |rows| ==> r.value == rows)
    ensures r.Ok? && r.value != [] ==> HasContent(r.value[0])
  {
    if rows == [] then Ok(rows)
    else
      var line :- Info(rows[0]);
      if line.text == "" then Skip(rows[1..]) else Ok(rows)
  }

  // -------------------------------------------------------- continuation

  function EmptyLines(n: nat): (r: seq<string>)
    ensures |r| == n
  {
    if n == 0 then [] else EmptyLines(n - 1) + [""]
  }

  /** The continuation lines of a flow scalar in `parent`, with `pending` empty
      lines read before `rows`. */
  function Continuation(rows: Rows, parent: nat, isPlain: bool, pending: nat): (parts: seq<string>)
    ensures |parts| <= pending + |rows|
  {
    if rows == [] then []
    else if IsBlank(rows[0]) then Continuation(rows[1..], parent, isPlain, pending + 1)
    else if LeadingSpaces(rows[0]) <= parent then []
    else
      var text := if isPlain then Trim(StripComment(rows[0])) else Trim(rows[0]);
      if isPlain && text == "" then []
      else EmptyLines(pending) + [text] + Continuation(rows[1..], parent, isPlain, 0)
  }

  // -------------------------------------------------------- block scalars

  datatype Header = Header(folded: bool, indicator: nat, chomp: string)

  predicate IsIndentDigit(c: char) { '1' <= c <= '9' }

  predicate IsChomp(c: char) { c == '+' || c == '-' }

  /** `/^([|>])(?:([1-9])([+-]?)|([+-]?)([1-9]?))\s*$/` */
  function ParseHeader(text: string): Option<Header> {
    var t := TrimEnd(text);
    if t == "" || (t[0] != '|' && t[0] != '>') then None
    else
      var folded := t[0] == '>';
      if |t| == 1 then Some(Header(folded, 0, ""))
      else if |t| == 2 && IsIndentDigit(t[1]) then Some(Header(folded, t[1] as int - '0' as int, ""))
      else if |t| == 2 && IsChomp(t[1]) then Some(Header(folded, 0, t[1..]))
      else if |t| == 3 && IsIndentDigit(t[1]) && IsChomp(t[2]) then
        Some(Header(folded, t[1] as int - '0' as int, t[2..]))
      else if |t| == 3 && IsChomp(t[1]) && IsIndentDigit(t[2]) then
        Some(Header(folded, t[2] as int - '0' as int, t[1..2]))
      else None
  }

  /** The lines of a block scalar in `parent`, given its content indentation if
      it is known. Every line takes one row. */
  function BlockLines(rows: Rows, parent: nat, contentIndent: Option<nat>): (lines: seq<string>)
    ensures |lines| <= |rows|
  {
    if rows == [] then []
    else if IsBlank(rows[0]) then
      [if contentIndent.None? then "" else SliceFrom(rows[0], contentIndent.value)]
      + BlockLines(rows[1..], parent, contentIndent)
    else
      var lead := LeadingSpaces(rows[0]);
      if contentIndent.None? && lead <= parent then []
      else
        var content := if contentIndent.None? then lead else contentIndent.value;
        if lead < content then []
        else [rows[0][content..]] + BlockLines(rows[1..], parent, Some(content))
  }

  predicate IsBlank(row: string) { Trim(row) == "" }

  /** The number of lines up to the last one that is not blank. */
  function KeptLines(lines: seq<string>): (n: nat)
    ensures n <= |lines|
    ensures n > 0 ==> !IsBlank(lines[n - 1])
  {
    if lines == [] then 0
    else if IsBlank(lines[|lines| - 1]) then KeptLines(lines[..|lines| - 1])
    else |lines|
  }

  predicate MoreIndented(line: string) {
    line != "" && (line[0] == ' ' || line[0] == '\t')
  }

  /** `foldBlock` after its first line, `last` being the line before. */
  function FoldBlockRest(lines: seq<string>, last: string): string {
    if lines == [] then ""
    else
      var line := lines[0];
      (if line == "" then "\n"
       else if MoreIndented(line) || MoreIndented(last) then "\n" + line
       else if last == "" then line
       else " " + line)
      + FoldBlockRest(lines[1..], line)
  }

  function FoldBlock(lines: seq<string>): string {
    if lines == [] then "" else lines[0] + FoldBlockRest(lines[1..], lines[0])
  }

  function Body(lines: seq<string>, folded: bool): string {
    if lines == [] then "" else if folded then FoldBlock(lines) else Join(lines)
  }

  /** A block's text: `body`, or no line at all, and the blank lines after it. */
  function Chomped(body: string, isEmpty: bool, trailing: nat, chomp: string): string {
    if isEmpty then if chomp == "+" then Newlines(trailing) else ""
    else if chomp == "-" then body
    else if chomp == "+" then body + "\n" + Newlines(trailing)
    else body + "\n"
  }

  function BlockScalar(rows: Rows, headerText: string, parent: nat): (r: Outcome<Yaml>)
    ensures r.Ok? ==> r.value.value.Str?
    ensures r.Ok? ==> Within(r.value.rest, rows)
  {
    match ParseHeader(Trim(StripComment(headerText)))
    case None => Err(BadBlockHeader)
    case Some(header) =>
      var lines := BlockLines(rows, parent, if header.indicator > 0 then Some(parent + header.indicator) else None);
      var kept := KeptLines(lines);
      var body := Body(lines[..kept], header.folded);
      Ok(Parsed(Str(Chomped(body, kept == 0, |lines| - kept, header.chomp)), rows[kept..]))
  }

  // ------------------------------------------------------ block structures

  /** The value of a `key:` line as written, so a quoted value keeps its `#`. */
  function WrittenValue(line: Line, found: KeyMatch): string {
    match found.rest
    case None => ""
    case Some(written) => Trim(SliceFrom(line.raw, IndexOf(line.raw, written, line.indent + |found.key|)))
  }

  /** A value as written, without its comment unless it is quoted. */
  function Uncommenting(written: string): string {
    if written != "" && IsQuote(written[0]) then written else Trim(StripComment(written))
  }

  /** What follows the dash of an item. */
  function ItemRest(text: string): (r: string)
    requires IsItem(text)
    ensures |r| < |text|
  {
    if text == "-" then "" else TrimStart(text[1..])
  }

  predicate OpensMap(rest: string) {
    (MatchKey(rest).Some? && !(rest != "" && IsQuote(rest[0]))) || LooksLikeQuotedKey(rest)
  }

  /** The column an inlined map starts at. */
  function ChildIndent(line: Line): nat
    requires IsItem(line.text)
  {
    line.indent + (|line.text| - |ItemRest(line.text)|)
  }

  /** The row that takes the place of `- key: ...`. */
  function WithoutDash(line: Line): string
    requires IsItem(line.text)
  {
    Spaces(ChildIndent(line)) + SliceFrom(line.raw, ChildIndent(line))
  }

  function ItemValue(line: Line): string
    requires IsItem(line.text)
  {
    Trim(SliceFrom(line.raw, IndexOf(line.raw, ItemRest(line.text), line.indent + 1)))
  }

  /** Rewriting a `- key:` row shortens what follows its indentation: the
      measure that lets the parser read the same row again. */
  lemma RewriteShrinks(rows: Rows)
    requires rows != [] && HasContent(rows[0]) && IsItem(LineOf(rows[0]).text)
    ensures HeadSize([WithoutDash(LineOf(rows[0]))] + rows[1..]) < HeadSize(rows)
  {
    var line := LineOf(rows[0]);
    TextAfterIndent(rows[0]);
    LeadingAtLeast(WithoutDash(line), ChildIndent(line));
  }

  lemma LeadingAtLeast(s: string, n: nat)
    requires n <= |s| && forall k :: 0 <= k < n ==> s[k] == ' '
    ensures LeadingSpaces(s) >= n
  {
    var lead := LeadingSpaces(s);
    assert lead < |s| ==> s[lead] != ' ';
  }

  lemma TextAfterIndent(raw: string)
    ensures |Trim(StripComment(raw))| <= |raw| - LeadingSpaces(raw)
  {
    var kept := StripComment(raw);
    var start := TrimStart(kept);
    var lead := LeadingSpaces(raw);
    var from := |kept| - |start|;
    TrimStartIsSuffix(kept);
    assert start != "" ==> start[0] == kept[from] == raw[from];
    assert forall k :: 0 <= k < lead ==> raw[k] == ' ';
  }

  function Value(rows: Rows, text: string, parent: nat, inMap: bool): (r: Outcome<Yaml>)
    ensures r.Ok? ==> Within(r.value.rest, rows)
    decreases |rows|, HeadSize(rows), 3
  {
    if text == "" then
      var after :- Skip(rows);
      if after != [] && LineOf(after[0]).indent > parent then Node(after, LineOf(after[0]).indent)
      else if inMap && after != [] && LineOf(after[0]).indent == parent && IsItem(LineOf(after[0]).text) then
        SequenceFrom(after, parent, [])
      else Ok(Parsed(Null, after))
    else if text[0] == '|' || text[0] == '>' then BlockScalar(rows, text, parent)
    else
      var parts := Continuation(rows, parent, !IsQuote(text[0]), 0);
      var scalar :- InlineScalar([text] + parts);
      Ok(Parsed(scalar, rows[|parts|..]))
  }

  /** The entry of a `key:` line, unless `out` has its key already. */
  function MapEntry(rows: Rows, indent: nat, out: seq<Entry>): (r: Outcome<Entry>)
    requires rows != [] && HasContent(rows[0])
    ensures r.Ok? ==> |r.value.rest| < |rows|
    decreases |rows|, HeadSize(rows), 0
  {
    var line := LineOf(rows[0]);
    match MatchKey(line.text)
    case None => Err(ExpectedKey)
    case Some(found) =>
      KeyIsNoCollection(line.text);
      var scalar :- OneLine(found.key);
      var key := KeyText(scalar);
      if HasKey(out, key) then Err(DuplicateKey)
      else
        var read :- Value(rows[1..], Uncommenting(WrittenValue(line, found)), indent, true);
        Ok(Parsed(Entry(key, read.value), read.rest))
  }

  /** `map`, with the entries read so far. */
  function MapFrom(rows: Rows, indent: nat, out: seq<Entry>): (r: Outcome<Yaml>)
    ensures r.Ok? ==> r.value.value.Map? && Within(r.value.rest, rows)
    decreases |rows|, HeadSize(rows), 1
  {
    var after :- Skip(rows);
    if after == [] || LineOf(after[0]).indent < indent || IsItem(LineOf(after[0]).text) then
      Ok(Parsed(Map(out), after))
    else if LineOf(after[0]).indent > indent then Err(UnexpectedIndentation)
    else
      var entry :- MapEntry(after, indent, out);
      MapFrom(entry.rest, indent, out + [entry.value])
  }

  /** One turn of `sequence`: the item whose dash is on the first row. After a
      dash alone the item is the deeper block below it or null, as for an empty
      value. */
  function Item(rows: Rows, indent: nat): (r: Outcome<Yaml>)
    requires rows != [] && HasContent(rows[0]) && IsItem(LineOf(rows[0]).text)
    ensures r.Ok? ==> Shrinks(r.value.rest, rows)
    decreases |rows|, HeadSize(rows), 0
  {
    var line := LineOf(rows[0]);
    var rest := ItemRest(line.text);
    if rest == "" then Value(rows[1..], "", indent, false)
    else if IsItem(rest) then Err(NestedInlineSequence)
    else if OpensMap(rest) then
      RewriteShrinks(rows);
      MapFrom([WithoutDash(line)] + rows[1..], ChildIndent(line), [])
    else Value(rows[1..], Uncommenting(ItemValue(line)), indent, false)
  }

  /** What an item reads, by what follows its dash. */
  lemma ItemStep(rows: Rows, indent: nat)
    requires rows != [] && HasContent(rows[0]) && IsItem(LineOf(rows[0]).text)
    ensures var line := LineOf(rows[0]);
      var rest := ItemRest(line.text);
      && (rest != "" && IsItem(rest) ==> Item(rows, indent) == Err(NestedInlineSequence))
      && (rest != "" && !IsItem(rest) && OpensMap(rest) ==>
            Item(rows, indent) == MapFrom([WithoutDash(line)] + rows[1..], ChildIndent(line), []))
      && (rest == "" ==> Item(rows, indent) == Value(rows[1..], "", indent, false))
      && (rest != "" && !IsItem(rest) && !OpensMap(rest) ==>
            Item(rows, indent) == Value(rows[1..], Uncommenting(ItemValue(line)), indent, false))
  {
    hide HasContent, LineOf, IsItem, OpensMap, ItemRest, ChildIndent, WithoutDash, ItemValue, Value, MapFrom, Uncommenting;
  }

  /** `sequence`, with the items read so far. */
  function SequenceFrom(rows: Rows, indent: nat, out: seq<Yaml>): (r: Outcome<Yaml>)
    ensures r.Ok? ==> r.value.value.Seq? && Within(r.value.rest, rows)
    decreases |rows|, HeadSize(rows), 1
  {
    var after :- Skip(rows);
    if after == [] || LineOf(after[0]).indent < indent || !IsItem(LineOf(after[0]).text) then
      Ok(Parsed(Seq(out), after))
    else if LineOf(after[0]).indent > indent then Err(UnexpectedIndentation)
    else
      var item :- Item(after, indent);
      SequenceFrom(item.rest, indent, out + [item.value])
  }

  function Node(rows: Rows, indent: nat): (r: Outcome<Yaml>)
    requires Skip(rows) == Ok(rows) && rows != []
    ensures r.Ok? ==> Within(r.value.rest, rows)
    decreases |rows|, HeadSize(rows), 2
  {
    if IsItem(LineOf(rows[0]).text) then SequenceFrom(rows, indent, []) else MapFrom(rows, indent, [])
  }

  lemma KeyIsNoCollection(text: string)
    requires MatchKey(text).Some?
    ensures OneLine(MatchKey(text).value.key).Ok? ==> !IsCollection(OneLine(MatchKey(text).value.key).value)
  {
    var key := MatchKey(text).value.key;
    assert key != "" ==> key[0] == text[0];
  }

  /** One document: no value when it has no content. */
  function ParseDocument(rows: Rows): Result<Option<Yaml>, YamlError> {
    var first :- Skip(rows);
    if first == [] then Ok(None)
    else
      var result :- Node(first, LineOf(first[0]).indent);
      var left :- Skip(result.rest);
      if left != [] then Err(UnexpectedIndentation) else Ok(Some(result.value))
  }

  // ------------------------------------------------- one step of each reader

  lemma SkipStep(rest: Rows)
    ensures Skip(rest) ==
            if rest == [] then Ok(rest)
            else
              match Info(rest[0])
              case Err(e) => Err(e)
              case Ok(line) => if line.text == "" then Skip(rest[1..]) else Ok(rest)
  {
    hide Info;
  }

  lemma EmptyLinesGrow(n: nat)
    ensures EmptyLines(0) == [] && EmptyLines(n + 1) == EmptyLines(n) + [""]
  {
  }

  lemma ContinuationStep(rest: Rows, parent: nat, isPlain: bool, pending: nat)
    ensures Continuation(rest, parent, isPlain, pending) ==
            if rest == [] then []
            else if IsBlank(rest[0]) then Continuation(rest[1..], parent, isPlain, pending + 1)
            else if LeadingSpaces(rest[0]) <= parent then []
            else
              var text := if isPlain then Trim(StripComment(rest[0])) else Trim(rest[0]);
              if isPlain && text == "" then []
              else EmptyLines(pending) + [text] + Continuation(rest[1..], parent, isPlain, 0)
  {
    hide IsBlank, StripComment, Trim, LeadingSpaces;
  }

  lemma BlockLinesStep(rest: Rows, parent: nat, contentIndent: Option<nat>)
    ensures BlockLines(rest, parent, contentIndent) ==
            if rest == [] then []
            else if IsBlank(rest[0]) then
              [if contentIndent.None? then "" else SliceFrom(rest[0], contentIndent.value)]
              + BlockLines(rest[1..], parent, contentIndent)
            else
              var lead := LeadingSpaces(rest[0]);
              if contentIndent.None? && lead <= parent then []
              else
                var content := if contentIndent.None? then lead else contentIndent.value;
                if lead < content then []
                else [rest[0][content..]] + BlockLines(rest[1..], parent, Some(content))
  {
    hide IsBlank, LeadingSpaces;
  }

  lemma BadHeader(rows: Rows, headerText: string, parent: nat)
    requires ParseHeader(Trim(StripComment(headerText))) == None
    ensures BlockScalar(rows, headerText, parent) == Err(BadBlockHeader)
  {
    hide StripComment, Trim, ParseHeader;
  }

  lemma BlockScalarIs(rows: Rows, headerText: string, parent: nat, h: Header, all: seq<string>, lines: seq<string>)
    requires ParseHeader(Trim(StripComment(headerText))) == Some(h)
    requires all == BlockLines(rows, parent, if h.indicator > 0 then Some(parent + h.indicator) else None)
    requires lines == all[..KeptLines(all)]
    ensures |lines| <= |rows|
    ensures var text := Chomped(Body(lines, h.folded), |lines| == 0, |all| - |lines|, h.chomp);
      BlockScalar(rows, headerText, parent) == Ok(Parsed(Str(text), rows[|lines|..]))
  {
    hide StripComment, Trim, ParseHeader, BlockLines, KeptLines, Chomped, Body, FoldBlock, Join, IsBlank;
  }

  lemma BodyIs(lines: seq<string>, folded: bool)
    ensures Body(lines, folded) == if |lines| == 0 then "" else if folded then FoldBlock(lines) else Join(lines)
  {
  }

  lemma KeptLinesStep(lines: seq<string>)
    ensures KeptLines(lines) ==
            if lines != [] && IsBlank(lines[|lines| - 1]) then KeptLines(lines[..|lines| - 1]) else |lines|
  {
    hide IsBlank;
  }

  /** One turn of `sequence`. */
  lemma SequenceStep(rows: Rows, indent: nat, out: seq<Yaml>)
    ensures Skip(rows).Err? ==> SequenceFrom(rows, indent, out) == Err(Skip(rows).error)
    ensures Skip(rows).Ok? ==>
      var after := Skip(rows).value;
      if after == [] || LineOf(after[0]).indent < indent || !IsItem(LineOf(after[0]).text) then
        SequenceFrom(rows, indent, out) == Ok(Parsed(Seq(out), after))
      else if LineOf(after[0]).indent > indent then
        SequenceFrom(rows, indent, out) == Err(UnexpectedIndentation)
      else if Item(after, indent).Err? then
        SequenceFrom(rows, indent, out) == Err(Item(after, indent).error)
      else
        var item := Item(after, indent).value;
        SequenceFrom(rows, indent, out) == SequenceFrom(item.rest, indent, out + [item.value])
  {
    hide Info, HasContent, LineOf, Item, Skip, IsItem, HeadSize, Shrinks;
  }

  lemma SkipIsIdempotent(rows: Rows)
    ensures Skip(rows).Ok? ==> Skip(Skip(rows).value) == Skip(rows)
  {
    hide Info;
  }

  /** One turn of `map`. */
  lemma MapStep(rows: Rows, indent: nat, out: seq<Entry>)
    ensures Skip(rows).Err? ==> MapFrom(rows, indent, out) == Err(Skip(rows).error)
    ensures Skip(rows).Ok? ==>
      var after := Skip(rows).value;
      if after == [] || LineOf(after[0]).indent < indent || IsItem(LineOf(after[0]).text) then
        MapFrom(rows, indent, out) == Ok(Parsed(Map(out), after))
      else if LineOf(after[0]).indent > indent then
        MapFrom(rows, indent, out) == Err(UnexpectedIndentation)
      else
        var entry := MapEntry(after, indent, out);
        MapFrom(rows, indent, out)
        == if entry.Err? then Err(entry.error)
           else MapFrom(entry.value.rest, indent, out + [entry.value.value])
  {
    hide Info, HasContent, LineOf, MapEntry, Skip, IsItem, HeadSize;
  }

  // ---------------------------------------------------------------- streams

  /** `/^---\s*$/` */
  predicate IsSeparator(row: string) {
    TrimEnd(row) == "---"
  }

  /** `/^(\.\.\.|%)/` or `/^--- /` */
  predicate IsForbiddenMarker(row: string) {
    StartsWith(row, "...") || StartsWith(row, "%") || StartsWith(row, "--- ")
  }

  /** A row without a final carriage return. */
  function WithoutReturn(row: string): string {
    if row != "" && row[|row| - 1] == '\r' then row[..|row| - 1] else row
  }

  /** The rows of every document, `current` holding the last one's so far. */
  function Documents(rows: Rows, current: Rows): (r: Result<seq<Rows>, YamlError>)
    ensures r.Ok? ==> |r.value| > 0
    decreases |rows|
  {
    if rows == [] then Ok([current])
    else if IsSeparator(rows[0]) then
      var rest :- Documents(rows[1..], []);
      Ok([current] + rest)
    else if IsForbiddenMarker(rows[0]) then Err(UnsupportedMarker)
    else Documents(rows[1..], current + [WithoutReturn(rows[0])])
  }

  function ParseDocuments(documents: seq<Rows>): Result<seq<Yaml>, YamlError> {
    if documents == [] then Ok([])
    else
      var first :- ParseDocument(documents[0]);
      var rest :- ParseDocuments(documents[1..]);
      Ok((if first.Some? then [first.value] else []) + rest)
  }

  function ParseYamlStream(text: string): Result<seq<Yaml>, YamlError> {
    var documents :- Documents(Split(text), []);
    ParseDocuments(documents)
  }

  /** A document marker the reader refuses; it is found before any document is
      read. */
  predicate HasBadMarker(text: string) { Documents(Split(text), []).Err? }
}
