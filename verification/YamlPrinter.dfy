/**
 A printer of trees in any layout a style chooses: how deep each collection
 stands, a sequence at the column of its own key or right of it, a map on the
 line of its dash or below it, lists of scalars over rows or in brackets, and
 strings in single or double quotes or plain when the reader takes them back as
 themselves. The layout `kubectl kustomize` gives the reader is one of them. A
 string of several lines that fit a literal block is written as one.
 */
module YamlPrinter {
  import opened Text
  import opened YamlScalars
  import opened YamlDocument

  // ------------------------------------------------------------------ tokens

  /** Quotes are written by number: an item with a quote before `: ` would be
      read as a quoted key. */
  function EscapeChar(c: char): (e: string)
    ensures e != ""
  {
    match c
    case '"' => "\\x22"
    case '\'' => "\\x27"
    case '\\' => "\\\\"
    case '\n' => "\\n"
    case '\r' => "\\r"
    case '\U{2028}' => "\\L"
    case '\U{2029}' => "\\P"
    case _ => [c]
  }

  function Escape(s: string): string {
    if s == "" then "" else EscapeChar(s[0]) + Escape(s[1..])
  }

  function Quoted(s: string): string {
    "\"" + Escape(s) + "\""
  }

  /** Text that nothing in a row reads as structure: no quote, no comment sign,
      no `: ` and no dash item. */
  predicate IsBare(t: string) {
    t != "" && !IsSpace(t[0]) && !IsSpace(t[|t| - 1]) && t[0] != ':' && !IsItem(t)
    && (forall c :: c in t ==> !IsQuote(c) && c != '#' && (IsSpace(c) ==> c == ' '))
    && (forall k :: 0 <= k < |t| && t[k] == ':' ==> k + 1 < |t| && !IsSpace(t[k + 1]))
  }

  predicate IsPlainText(s: string) {
    IsBare(s) && s[0] != '|' && s[0] != '>' && PlainScalar(s) == Ok(Str(s))
  }

  predicate IsKeyChar(c: char) {
    IsLetter(c) || IsDigit(c) || c == '_' || c == '.' || c == '-' || c == '/'
  }

  predicate IsPlainKey(k: string) {
    k != "" && (IsLetter(k[0]) || k[0] == '_') && forall c :: c in k ==> IsKeyChar(c)
  }

  /** Text single quotes can hold as it is, on a line and under a dash. */
  predicate FitsQuotes(s: string) {
    forall c :: c in s ==> !IsQuote(c) && !IsLineTerminator(c)
  }

  datatype Quoting = AsNeeded | Single | Double

  /** A string's token, `plain` telling whether it may stand without quotes. Plain
      text with a backslash is not put in double quotes. */
  function TextToken(s: string, plain: bool, quoting: Quoting): string {
    if quoting.Single? && FitsQuotes(s) then "'" + (s + "'")
    else if plain && (!quoting.Double? || '\\' in s) then s
    else Quoted(s)
  }

  function KeyToken(k: string, style: Style): string {
    TextToken(k, IsPlainKey(k), style.quoting(k))
  }

  // ------------------------------------------------------------ literal blocks

  /** Lines a literal block can hold without an indentation indicator. */
  predicate FitsBlock(lines: seq<string>) {
    lines != [] && !IsBlank(lines[|lines| - 1])
    && (forall line :: line in lines ==> '\n' !in line)
    && BlockStart(lines)
  }

  /** The lines before the first that is not blank are empty, and that one does
      not start with a space. */
  predicate BlockStart(lines: seq<string>) {
    lines != [] && (if IsBlank(lines[0]) then lines[0] == "" && BlockStart(lines[1..]) else lines[0][0] != ' ')
  }

  function BlockRow(line: string, indent: nat): string {
    if line == "" then "" else Spaces(indent) + line
  }

  /** The rows of a block's lines at an indentation. */
  function BlockRows(lines: seq<string>, indent: nat): (rows: Rows)
    ensures |rows| == |lines|
  {
    if lines == [] then []
    else [BlockRow(lines[0], indent)] + BlockRows(lines[1..], indent)
  }

  /** A string as block lines and whether one newline ends it. */
  function BlockBody(s: string): seq<string> {
    if s != "" && s[|s| - 1] == '\n' then Split(s[..|s| - 1]) else Split(s)
  }

  function BlockHeader(s: string): string {
    if s != "" && s[|s| - 1] == '\n' then "|" else "|-"
  }

  predicate IsBlockText(s: string) {
    '\n' in s && '\r' !in s && FitsBlock(BlockBody(s))
  }

  // -------------------------------------------------------------------- values

  /** Every value whose decimals are numbers and whose keys are distinct. */
  predicate Printable(y: Yaml) {
    match y
    case Decimal(literal) => IsDecimalText(literal)
    case Seq(items) => forall item :: item in items ==> Printable(item)
    case Map(entries) => DistinctKeys(entries) && forall entry :: entry in entries ==> Printable(entry.value)
    case _ => true
  }

  predicate DistinctKeys(entries: seq<Entry>) {
    forall j, k :: 0 <= j < k < |entries| ==> entries[j].key != entries[k].key
  }

  predicate IsBlock(y: Yaml) {
    y.Str? && IsBlockText(y.s)
  }

  /** What a printer may choose for a value: a list in brackets, where it can be, a
      map on the rows below its dash instead of on its line, how far to the right of
      the first possible column its own rows start, how many blanks more than one
      stand before it, and the quotes of a string or key. */
  datatype Style =
    Style(brackets: Yaml -> bool, below: Yaml -> bool, step: Yaml -> nat, gap: Yaml -> nat, quoting: string -> Quoting)

  /** A scalar both readers take between brackets: no bracket in it, and no comma
      outside quotes. */
  predicate IsFlowItem(y: Yaml, style: Style) {
    !IsCollection(y) && !IsBlock(y)
    && (forall c :: c in ScalarText(y, style) ==> !IsFlowBracket(c)) && (IsBare(ScalarText(y, style)) ==> ',' !in ScalarText(y, style))
  }

  predicate AreFlowItems(items: seq<Yaml>, style: Style) {
    items != [] && forall k :: 0 <= k < |items| ==> IsFlowItem(items[k], style)
  }

  predicate InBrackets(y: Yaml, style: Style) {
    y.Seq? && AreFlowItems(y.items, style) && style.brackets(y)
  }

  /** A collection that takes rows of its own. */
  predicate IsNested(y: Yaml, style: Style) {
    (y.Seq? && y.items != [] && !InBrackets(y, style)) || (y.Map? && y.entries != [])
  }

  /** What stands on the line of the key or dash. */
  function ScalarText(y: Yaml, style: Style): string
    decreases y
  {
    match y
    case Null => "null"
    case Bool(b) => if b then "true" else "false"
    case Int(n) => IntText(n)
    case Decimal(literal) => literal
    case Str(s) => if IsBlockText(s) then BlockHeader(s) else TextToken(s, IsPlainText(s), style.quoting(s))
    case Seq(items) =>
      "[" + (JoinWith(seq(|items|, k requires 0 <= k < |items| => ScalarText(items[k], style)), ", ") + "]")
    case Map(_) => "{}"
  }

  function HeadText(y: Yaml, style: Style): string {
    if IsNested(y, style) then "" else ScalarText(y, style)
  }

  /** What follows a key's colon or a dash on its line. */
  function Tail(y: Yaml, style: Style): string {
    if IsNested(y, style) then "" else Gap(y, style) + ScalarText(y, style)
  }

  /** The blanks between a colon or dash and its value. */
  function Gap(y: Yaml, style: Style): (r: string)
    ensures r != "" && forall c :: c in r ==> c == ' '
  {
    Spaces(style.gap(y) + 1)
  }

  function KeyLine(key: string, y: Yaml, style: Style): string {
    KeyToken(key, style) + (":" + Tail(y, style))
  }

  function DashLine(y: Yaml, style: Style): string {
    "-" + Tail(y, style)
  }

  function PrintMap(entries: seq<Entry>, indent: nat, style: Style): (rows: Rows)
    ensures entries != [] ==> rows != []
    decreases entries
  {
    if entries == [] then []
    else
      [Spaces(indent) + KeyLine(entries[0].key, entries[0].value, style)]
      + PrintUnder(entries[0].value, indent, true, style)
      + PrintMap(entries[1..], indent, style)
  }

  /** The column of the rows under the line of a key or dash at `indent`; a
      sequence may stand at the column of its own key. */
  function Column(y: Yaml, indent: nat, inMap: bool, style: Style): nat {
    (if inMap && y.Seq? then indent else indent + 1) + style.step(y)
  }

  /** The column of a map on the line of a dash at `indent`. */
  function DashColumn(y: Yaml, indent: nat, style: Style): nat { indent + 2 + style.step(y) }

  predicate IsOnDash(y: Yaml, style: Style) { y.Map? && y.entries != [] && !style.below(y) }

  /** The rows under the line of a key or dash at `indent`. */
  function PrintUnder(y: Yaml, indent: nat, inMap: bool, style: Style): Rows
    decreases y, 0
  {
    if IsBlock(y) then BlockRows(BlockBody(y.s), Column(y, indent, inMap, style))
    else if !IsNested(y, style) then []
    else if y.Map? then PrintMap(y.entries, Column(y, indent, inMap, style), style)
    else PrintSeq(y.items, Column(y, indent, inMap, style), style)
  }

  function PrintSeq(items: seq<Yaml>, indent: nat, style: Style): (rows: Rows)
    ensures items != [] ==> rows != []
    decreases items
  {
    if items == [] then [] else PrintItem(items[0], indent, style) + PrintSeq(items[1..], indent, style)
  }

  function PrintItem(y: Yaml, indent: nat, style: Style): (rows: Rows)
    ensures rows != []
    decreases y, 1
  {
    if IsOnDash(y, style) then WithDash(PrintMap(y.entries, DashColumn(y, indent, style), style), indent, DashColumn(y, indent, style))
    else [Spaces(indent) + DashLine(y, style)] + PrintUnder(y, indent, false, style)
  }

  /** A dash with text from `column` on. */
  function Dashed(indent: nat, column: nat, body: string): string
    requires indent + 2 <= column
  {
    Spaces(indent) + ("-" + (Spaces(column - indent - 1) + body))
  }

  /** The rows of a map at `column`, its first one on the line of a dash. */
  function WithDash(rows: Rows, indent: nat, column: nat): Rows
    requires rows != [] && indent + 2 <= column
  {
    [Dashed(indent, column, SliceFrom(rows[0], column))] + rows[1..]
  }

  function PrintDocument(y: Yaml, style: Style): (rows: Rows)
    requires IsNested(y, style)
    ensures rows != []
  {
    if y.Map? then PrintMap(y.entries, 0, style) else PrintSeq(y.items, 0, style)
  }
}
