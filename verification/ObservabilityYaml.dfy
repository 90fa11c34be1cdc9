/**
 The smaller YAML reader of scripts/check-observability.mjs (`parseYaml`), as
 functions. It drops blank and comment lines first and then reads the lines
 left; like the strict reader it reads a `- key:` line again after rewriting it.
 */
module ObservabilityYaml {
  import opened Text
  import opened YamlScalars

  /** A line without comment: its indentation and its text. */
  datatype Line = Line(indent: nat, text: string)

  type Lines = seq<Line>

  datatype Parsed<+T> = Parsed(value: T, rest: Lines)

  type Outcome<+T> = Result<Parsed<T>, YamlError>

  // ------------------------------------------------------------------ scalars

  /** What this reader's `stripComment` keeps of the rest of a line; a backslash
      means nothing to it. */
  function Kept(s: string, quote: Option<char>, atBreak: bool): (r: string)
    ensures r <= s
  {
    if s == "" then ""
    else if quote.Some? then
      [s[0]] + Kept(s[1..], if s[0] == quote.value then None else quote, IsSpace(s[0]))
    else if IsQuote(s[0]) then [s[0]] + Kept(s[1..], Some(s[0]), false)
    else if s[0] == '#' && atBreak then ""
    else [s[0]] + Kept(s[1..], None, IsSpace(s[0]))
  }

  function WithoutComment(line: string): (r: string)
    ensures r <= line
  {
    Kept(line, None, true)
  }

  /** The items of a flow sequence, `current` read so far. */
  function SplitFlow(s: string, current: string, quote: Option<char>): (r: Result<seq<string>, YamlError>)
    ensures r.Ok? ==> forall item :: item in r.value ==> |item| <= |current| + |s|
  {
    if s == "" then Ok(if Trim(current) != "" then [current] else [])
    else if quote.Some? then
      SplitFlow(s[1..], current + [s[0]], if s[0] == quote.value then None else quote)
    else if IsQuote(s[0]) then SplitFlow(s[1..], current + [s[0]], Some(s[0]))
    else if s[0] == ',' then
      var rest :- SplitFlow(s[1..], "", None);
      Ok([current] + rest)
    else if IsFlowBracket(s[0]) then Err(NestedFlow)
    else SplitFlow(s[1..], current + [s[0]], None)
  }

  /** `/^[{|>&*!%@`]/` */
  predicate IsUnsupportedStart(c: char) { c in "{|>&*!%@`" }

  /** `/^-?\d+(\.\d+)?$/` */
  predicate IsNumberText(t: string) {
    var u := if t != "" && t[0] == '-' then t[1..] else t;
    var whole := DigitRun(u);
    whole > 0 && (whole == |u| || (u[whole] == '.' && AllDigits(u[whole + 1..])))
  }

  function Number(t: string): Yaml {
    if IsIntegerText(t) then Int(IntegerValue(t)) else Decimal(t)
  }

  function Word(t: string): (r: Result<Yaml, YamlError>)
    ensures r.Ok? ==> !IsCollection(r.value)
  {
    if t != "" && IsUnsupportedStart(t[0]) then Err(UnsupportedValue)
    else if t == "true" then Ok(Bool(true))
    else if t == "false" then Ok(Bool(false))
    else if t == "null" || t == "~" then Ok(Null)
    else if IsNumberText(t) then Ok(Number(t))
    else Ok(Str(t))
  }

  function Scalar(value: string): (r: Result<Yaml, YamlError>)
    ensures r.Ok? && (value == "" || value[0] != '[') ==> !IsCollection(r.value)
    decreases |value|, 1
  {
    if value != "" && value[0] == '[' then
      if value[|value| - 1] != ']' then Err(Unterminated)
      else
        var items :- SplitFlow(value[1..|value| - 1], "", None);
        var values :- Scalars(items, |value| - 2);
        Ok(Seq(values))
    else if value != "" && IsQuote(value[0]) then
      if |value| < 2 || value[|value| - 1] != value[0] then Err(Unterminated)
      else Ok(Str(value[1..|value| - 1]))
    else Word(value)
  }

  function Scalars(items: seq<string>, bound: nat): Result<seq<Yaml>, YamlError>
    requires forall item :: item in items ==> |item| <= bound
    decreases bound, 2, |items|
  {
    if items == [] then Ok([])
    else
      var first :- Scalar(Trim(items[0]));
      var rest :- Scalars(items[1..], bound);
      Ok([first] + rest)
  }

  // --------------------------------------------------------------- the entry

  /** `[\w.-]` */
  predicate IsEntryChar(c: char) {
    IsLetter(c) || IsDigit(c) || c == '_' || c == '.' || c == '-'
  }

  function EntryRun(s: string): (n: nat)
    ensures n <= |s|
    ensures forall k :: 0 <= k < n ==> IsEntryChar(s[k])
    ensures n < |s| ==> !IsEntryChar(s[n])
  {
    if s != "" && IsEntryChar(s[0]) then 1 + EntryRun(s[1..]) else 0
  }

  /** The length of the key, quotes included. */
  function KeyLength(t: string): (r: Option<nat>)
    ensures r.Some? ==> 0 < r.value <= |t|
  {
    if t == "" then None
    else if IsLetter(t[0]) || t[0] == '_' then Some(1 + EntryRun(t[1..]))
    else if IsQuote(t[0]) then
      var close := IndexOf(t, [t[0]], 1);
      if close == -1 then None else Some(close + 1)
    else None
  }

  /** `MAP_ENTRY`. */
  function MatchEntry(t: string): (r: Option<KeyMatch>)
    ensures r.Some? ==> r.value.key != "" && t != "" && r.value.key[0] == t[0]
  {
    match KeyLength(t)
    case None => None
    case Some(n) =>
      if n == |t| || t[n] != ':' then None
      else
        var after := t[n + 1..];
        if after == "" then Some(KeyMatch(t[..n], None))
        else if IsSpace(after[0]) && forall c :: c in TrimStart(after) ==> !IsLineTerminator(c) then
          Some(KeyMatch(t[..n], Some(TrimStart(after))))
        else None
  }

  predicate IsItem(text: string) {
    text == "-" || StartsWith(text, "- ")
  }

  // -------------------------------------------------------------- the lines

  function Leading(line: string): string {
    line[..|line| - |TrimStart(line)|]
  }

  function Filtered(rows: seq<string>): Result<Lines, YamlError> {
    if rows == [] then Ok([])
    else
      var line := TrimEnd(WithoutComment(rows[0]));
      if Trim(line) == "" then Filtered(rows[1..])
      else if '\t' in Leading(line) then Err(TabIndentation)
      else if Trim(line) == "---" || Trim(line) == "..." then Err(UnsupportedMarker)
      else
        var rest :- Filtered(rows[1..]);
        Ok([Line(|Leading(line)|, Trim(line))] + rest)
  }

  // --------------------------------------------------------- block structures

  /** What is left after reading: fewer lines. */
  predicate Consumed(after: Lines, before: Lines) {
    |after| < |before|
  }

  function TextSize(lines: Lines): nat {
    if lines == [] then 0 else |lines[0].text|
  }

  function Block(lines: Lines, indent: nat): (r: Outcome<Yaml>)
    requires lines != [] && lines[0].indent == indent
    ensures r.Ok? ==> Consumed(r.value.rest, lines)
    decreases |lines|, TextSize(lines), 2
  {
    if IsItem(lines[0].text) then SequenceFrom(lines, indent, []) else MapFrom(lines, indent, [])
  }

  function EntryValue(lines: Lines, indent: nat, written: Option<string>): (r: Outcome<Yaml>)
    ensures r.Ok? ==> |r.value.rest| <= |lines|
    decreases |lines|, TextSize(lines), 3
  {
    if written.Some? && written.value != "" then
      var value :- Scalar(written.value);
      Ok(Parsed(value, lines))
    else if lines != [] && lines[0].indent > indent then Block(lines, lines[0].indent)
    else if lines != [] && lines[0].indent == indent && IsItem(lines[0].text) then SequenceFrom(lines, indent, [])
    else Ok(Parsed(Null, lines))
  }

  /** `map`, with the entries read so far. */
  function MapFrom(lines: Lines, indent: nat, out: seq<Entry>): (r: Outcome<Yaml>)
    ensures r.Ok? ==> |r.value.rest| <= |lines|
    ensures r.Ok? && lines != [] && lines[0].indent == indent && !IsItem(lines[0].text) ==> Consumed(r.value.rest, lines)
    decreases |lines|, TextSize(lines), 0
  {
    if lines == [] || lines[0].indent != indent || IsItem(lines[0].text) then Ok(Parsed(Map(out), lines))
    else
      match MatchEntry(lines[0].text)
      case None => Err(ExpectedKey)
      case Some(found) =>
        EntryKeyIsNoFlow(lines[0].text);
        var scalar :- Scalar(found.key);
        var key := KeyText(scalar);
        if HasKey(out, key) then Err(DuplicateKey)
        else
          var value :- EntryValue(lines[1..], indent, found.rest);
          MapFrom(value.rest, indent, out + [Entry(key, value.value)])
  }

  lemma EntryKeyIsNoFlow(text: string)
    ensures MatchEntry(text).Some? ==> MatchEntry(text).value.key[0] != '['
  {
  }

  /** What follows the dash of an item. */
  function ItemRest(text: string): (r: string)
    requires IsItem(text)
    ensures |r| < |text|
  {
    if text == "-" then "" else Trim(text[2..])
  }

  /** The line that takes the place of `- key: ...`. */
  function WithoutDash(line: Line): (r: Line)
    requires IsItem(line.text)
    ensures r.text == ItemRest(line.text)
  {
    Line(line.indent + IndexAfterDash(line.text), ItemRest(line.text))
  }

  /** `text.indexOf(rest)`; the rest is part of the text. */
  function IndexAfterDash(text: string): nat
    requires IsItem(text)
  {
    ItemRestOccurs(text);
    IndexOf(text, ItemRest(text), 0)
  }

  lemma ItemRestOccurs(text: string)
    requires IsItem(text)
    ensures IndexOf(text, ItemRest(text), 0) >= 0
  {
    hide IndexOf, TrimStart, TrimEnd, IsSpace;
    if text == "-" {
      assert OccursAt(text, "", 0);
    } else {
      var s := text[2..];
      var start := TrimStart(s);
      TrimStartIsSuffix(s);
      var k := |text| - |start|;
      assert text[k..] == start;
      assert text[k..k + |ItemRest(text)|] == ItemRest(text);
      assert OccursAt(text, ItemRest(text), k);
    }
  }

  /** One turn of `sequence`. */
  function Item(lines: Lines, indent: nat): (r: Outcome<Yaml>)
    requires lines != [] && lines[0].indent == indent && IsItem(lines[0].text)
    ensures r.Ok? ==> Consumed(r.value.rest, lines)
    decreases |lines|, TextSize(lines), 0
  {
    var rest := ItemRest(lines[0].text);
    if rest == "" then
      if |lines| == 1 || lines[1].indent <= indent then Err(EmptySequenceItem)
      else Block(lines[1..], lines[1].indent)
    else if MatchEntry(rest).Some? then
      EntryIsNoItem(rest);
      MapFrom([WithoutDash(lines[0])] + lines[1..], WithoutDash(lines[0]).indent, [])
    else
      var value :- Scalar(rest);
      Ok(Parsed(value, lines[1..]))
  }

  lemma EntryIsNoItem(text: string)
    ensures MatchEntry(text).Some? ==> !IsItem(text)
  {
  }

  /** `sequence`, with the items read so far. */
  function SequenceFrom(lines: Lines, indent: nat, out: seq<Yaml>): (r: Outcome<Yaml>)
    ensures r.Ok? ==> |r.value.rest| <= |lines|
    ensures r.Ok? && lines != [] && lines[0].indent == indent && IsItem(lines[0].text) ==> Consumed(r.value.rest, lines)
    decreases |lines|, TextSize(lines), 1
  {
    if lines == [] || lines[0].indent != indent || !IsItem(lines[0].text) then Ok(Parsed(Seq(out), lines))
    else
      var item :- Item(lines, indent);
      SequenceFrom(item.rest, indent, out + [item.value])
  }

  function ParseLines(lines: Lines): Result<Yaml, YamlError> {
    if lines == [] then Ok(Null)
    else
      var result :- Block(lines, lines[0].indent);
      if result.rest != [] then Err(UnexpectedIndentation) else Ok(result.value)
  }

  function ParseYaml(text: string): Result<Yaml, YamlError> {
    var lines :- Filtered(Split(text));
    ParseLines(lines)
  }
}
