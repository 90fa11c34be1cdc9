/**
 The scalar level of the strict YAML reader of scripts/check-kubernetes.mjs:
 comments, flow scalars, plain values and the `key:` pattern, as functions on
 the text that is still to be read. Line numbers of error messages are not
 kept; an error is named by its kind.
 */
module YamlScalars {
  import opened Text

  /** A parsed value. A JavaScript object is the list of its entries in
      insertion order. */
  datatype Yaml =
    | Null
    | Bool(b: bool)
    | Int(n: int)
    | Decimal(literal: string)
    | Str(s: string)
    | Seq(items: seq<Yaml>)
    | Map(entries: seq<Entry>)

  datatype Entry = Entry(key: string, value: Yaml)

  predicate HasKey(entries: seq<Entry>, key: string) {
    exists k :: 0 <= k < |entries| && entries[k].key == key
  }

  predicate IsCollection(y: Yaml) { y.Seq? || y.Map? }

  datatype YamlError =
    | TabIndentation | UnexpectedIndentation | ExpectedKey | DuplicateKey
    | NestedInlineSequence | EmptySequenceItem
    | TextAfterQuoted | Unterminated | BadHexEscape | UnknownEscape | BadCodePoint
    | NestedFlow | UnsupportedValue | BadBlockHeader | UnsupportedMarker

  // ---------------------------------------------------------- comments

  /** What `stripComment` keeps of the rest of a line, reached with the given
      open quote and with white space (or the line start) just before it. */
  function Uncommented(s: string, quote: Option<char>, atBreak: bool): (r: string)
    ensures r <= s
  {
    if s == "" then ""
    else if quote == Some('"') && s[0] == '\\' then
      if |s| == 1 then s else s[..2] + Uncommented(s[2..], quote, IsSpace(s[1]))
    else if quote.Some? then
      [s[0]] + Uncommented(s[1..], if s[0] == quote.value then None else quote, IsSpace(s[0]))
    else if IsQuote(s[0]) then
      [s[0]] + Uncommented(s[1..], Some(s[0]), false)
    else if s[0] == '#' && atBreak then ""
    else
      [s[0]] + Uncommented(s[1..], None, IsSpace(s[0]))
  }

  function StripComment(line: string): (r: string)
    ensures r <= line
  {
    Uncommented(line, None, true)
  }

  // ------------------------------------------------------ flow scalars

  /** Folding of a multi-line flow scalar after its first line, with `blanks`
      empty lines pending. */
  function FoldRest(lines: seq<string>, blanks: nat): string {
    if lines == [] then ""
    else if lines[0] == "" then FoldRest(lines[1..], blanks + 1)
    else (if blanks > 0 then Newlines(blanks) else " ") + lines[0] + FoldRest(lines[1..], 0)
  }

  function FoldFlow(lines: seq<string>): string
    requires |lines| > 0
  {
    lines[0] + FoldRest(lines[1..], 0)
  }

  /** The number of newlines `s` starts with. */
  function BreakRun(s: string): (n: nat)
    ensures n <= |s|
    ensures forall k :: 0 <= k < n ==> s[k] == '\n'
    ensures n < |s| ==> s[n] != '\n'
  {
    if s != "" && s[0] == '\n' then 1 + BreakRun(s[1..]) else 0
  }

  lemma {:induction false} BreakRunIs(n: nat, rest: string)
    requires BreakRun(rest) == 0
    ensures BreakRun(Newlines(n) + rest) == n
  {
    if n == 0 {
      assert Newlines(0) + rest == rest;
    } else {
      assert (Newlines(n) + rest)[1..] == Newlines(n - 1) + rest;
      BreakRunIs(n - 1, rest);
    }
  }

  function FoldedBreaks(breaks: nat): string
    requires breaks > 0
  {
    if breaks == 1 then " " else Newlines(breaks - 1)
  }

  predicate IsHex(c: char) { IsDigit(c) || 'a' <= c <= 'f' || 'A' <= c <= 'F' }

  function HexDigit(c: char): nat
    requires IsHex(c)
  {
    if IsDigit(c) then c as int - '0' as int
    else if 'a' <= c then c as int - 'a' as int + 10
    else c as int - 'A' as int + 10
  }

  function HexValue(s: string): nat
    requires forall c :: c in s ==> IsHex(c)
  {
    if s == "" then 0 else 16 * HexValue(s[..|s| - 1]) + HexDigit(s[|s| - 1])
  }

  /** The character of a code point; a surrogate is not a scalar value and is
      refused here, like a number beyond the last code point. */
  function CodePoint(n: nat): Option<char> {
    if n < 0xD800 || 0xE000 <= n < 0x11_0000 then Some(n as char) else None
  }

  function HexSize(e: char): nat
    requires e == 'x' || e == 'u' || e == 'U'
  {
    if e == 'x' then 2 else if e == 'u' then 4 else 8
  }

  /** The one-character escapes (YAML 1.2.2, section 5.7). */
  function SimpleEscape(e: char): Option<char> {
    match e
    case '0' => Some('\0')
    case 'a' => Some('\U{07}')
    case 'b' => Some('\U{08}')
    case 't' => Some('\t')
    case '\t' => Some('\t')
    case 'n' => Some('\n')
    case 'v' => Some('\U{0B}')
    case 'f' => Some('\U{0C}')
    case 'r' => Some('\r')
    case 'e' => Some('\U{1B}')
    case ' ' => Some(' ')
    case '"' => Some('"')
    case '/' => Some('/')
    case '\\' => Some('\\')
    case 'N' => Some('\U{85}')
    case '_' => Some('\U{A0}')
    case 'L' => Some('\U{2028}')
    case 'P' => Some('\U{2029}')
    case _ => None
  }

  /** What may follow the closing quote: white space and a comment. */
  predicate NothingAfter(s: string) {
    Trim(StripComment(s)) == ""
  }

  /** The double-quoted scalar whose unread part is `s`. */
  function DoubleQuotedFrom(s: string): Result<string, YamlError>
    decreases |s|
  {
    if s == "" then Err(Unterminated)
    else if s[0] == '"' then
      if NothingAfter(s[1..]) then Ok("") else Err(TextAfterQuoted)
    else if s[0] == '\\' then
      if |s| == 1 then Err(UnknownEscape)
      else if s[1] == '\n' then DoubleQuotedFrom(s[2..])
      else if s[1] == 'x' || s[1] == 'u' || s[1] == 'U' then
        var end := 2 + HexSize(s[1]);
        if end > |s| || exists c :: c in s[2..end] && !IsHex(c) then Err(BadHexEscape)
        else
          match CodePoint(HexValue(s[2..end]))
          case None => Err(BadCodePoint)
          case Some(c) => Prepend([c], DoubleQuotedFrom(s[end..]))
      else
        match SimpleEscape(s[1])
        case None => Err(UnknownEscape)
        case Some(c) => Prepend([c], DoubleQuotedFrom(s[2..]))
    else if s[0] == '\n' then
      Prepend(FoldedBreaks(BreakRun(s)), DoubleQuotedFrom(s[BreakRun(s)..]))
    else
      Prepend([s[0]], DoubleQuotedFrom(s[1..]))
  }

  /** The single-quoted scalar whose unread part is `s`. */
  function SingleQuotedFrom(s: string): Result<string, YamlError>
    decreases |s|
  {
    if s == "" then Err(Unterminated)
    else if s[0] == '\'' then
      if |s| > 1 && s[1] == '\'' then Prepend("'", SingleQuotedFrom(s[2..]))
      else if NothingAfter(s[1..]) then Ok("")
      else Err(TextAfterQuoted)
    else if s[0] == '\n' then
      Prepend(FoldedBreaks(BreakRun(s)), SingleQuotedFrom(s[BreakRun(s)..]))
    else
      Prepend([s[0]], SingleQuotedFrom(s[1..]))
  }

  // ------------------------------------------------------ plain scalars

  function Unsigned(t: string): string {
    if t != "" && (t[0] == '-' || t[0] == '+') then t[1..] else t
  }

  predicate AllDigits(t: string) { t != "" && DigitRun(t) == |t| }

  /** `/^[-+]?\d+$/` */
  predicate IsIntegerText(t: string) { AllDigits(Unsigned(t)) }

  /** `/^[-+]?(\d+\.\d*|\.\d+)([eE][-+]?\d+)?$/` */
  predicate IsDecimalText(t: string) {
    var u := Unsigned(t);
    IsFraction(u[DigitRun(u)..], DigitRun(u) > 0)
  }

  predicate IsFraction(s: string, hasWhole: bool) {
    s != "" && s[0] == '.' &&
    var digits := DigitRun(s[1..]);
    (hasWhole || digits > 0) && IsExponent(s[1..][digits..])
  }

  predicate IsExponent(s: string) {
    s == "" || ((s[0] == 'e' || s[0] == 'E') && AllDigits(Unsigned(s[1..])))
  }

  function IntegerValue(t: string): int
    requires IsIntegerText(t)
  {
    var value: int := DigitsValue(Unsigned(t));
    if t[0] == '-' then -value else value
  }

  /** `/^[[\]{}&*!%@`|>?]/` */
  predicate IsIndicator(c: char) { c in "[]{}&*!%@`|>?" }

  predicate IsFlowBracket(c: char) { c in "[]{}" }

  /** The items of a flow sequence: the rest of its inside, with the item read
      so far and its open quote. */
  function FlowItems(s: string, current: string, quote: Option<char>): (items: seq<string>)
    ensures forall item :: item in items ==> |item| <= |current| + |s|
  {
    if s == "" then
      if Trim(current) != "" then [current] else []
    else if quote.Some? then
      FlowItems(s[1..], current + [s[0]], if s[0] == quote.value then None else quote)
    else if IsQuote(s[0]) then FlowItems(s[1..], current + [s[0]], Some(s[0]))
    else if s[0] == ',' then [current] + FlowItems(s[1..], "", None)
    else FlowItems(s[1..], current + [s[0]], None)
  }

  function PlainScalar(text: string): (r: Result<Yaml, YamlError>)
    ensures r.Ok? ==> !IsCollection(r.value)
  {
    if (text != "" && IsIndicator(text[0])) || StartsWith(text, "- ") then Err(UnsupportedValue)
    else if text == "true" then Ok(Bool(true))
    else if text == "false" then Ok(Bool(false))
    else if text == "null" || text == "~" then Ok(Null)
    else if IsIntegerText(text) then Ok(Int(IntegerValue(text)))
    else if IsDecimalText(text) then Ok(Decimal(text))
    else Ok(Str(text))
  }

  function Plain(text: string): (r: Result<Yaml, YamlError>)
    ensures text == "" || (text[0] != '[' && text[0] != '{') ==> r == PlainScalar(text)
    decreases |text|, 0
  {
    if text == "{}" then Ok(Map([]))
    else if text == "[]" then Ok(Seq([]))
    else if |text| >= 2 && text[0] == '[' && text[|text| - 1] == ']' then
      var inner := text[1..|text| - 1];
      if exists c :: c in inner && IsFlowBracket(c) then Err(NestedFlow)
      else
        var items :- FlowScalars(FlowItems(inner, "", None), |inner|);
        Ok(Seq(items))
    else PlainScalar(text)
  }

  /** Every item, trimmed, as a scalar of its own. */
  function FlowScalars(items: seq<string>, bound: nat): Result<seq<Yaml>, YamlError>
    requires forall item :: item in items ==> |item| <= bound
    decreases bound, 2, |items|
  {
    if items == [] then Ok([])
    else
      var first :- OneLine(Trim(items[0]));
      var rest :- FlowScalars(items[1..], bound);
      Ok([first] + rest)
  }

  /** A flow scalar written on one line. */
  function OneLine(text: string): (r: Result<Yaml, YamlError>)
    ensures text == "" || (text[0] != '[' && text[0] != '{') ==> r.Ok? ==> !IsCollection(r.value)
    decreases |text|, 1
  {
    if text != "" && text[0] == '"' then
      var s :- DoubleQuotedFrom(text[1..]);
      Ok(Str(s))
    else if text != "" && text[0] == '\'' then
      var s :- SingleQuotedFrom(text[1..]);
      Ok(Str(s))
    else Plain(text)
  }

  /** A flow scalar given as its trimmed lines, "" for an empty line. */
  function InlineScalar(lines: seq<string>): (r: Result<Yaml, YamlError>)
    requires |lines| > 0
    ensures |lines| == 1 ==> r == OneLine(lines[0])
  {
    var first := lines[0];
    if |lines| == 1 then OneLine(first)
    else if first != "" && first[0] == '"' then
      var s :- DoubleQuotedFrom(Join(lines)[1..]);
      Ok(Str(s))
    else if first != "" && first[0] == '\'' then
      var s :- SingleQuotedFrom(Join(lines)[1..]);
      Ok(Str(s))
    else if first != "" && IsIndicator(first[0]) then Err(UnsupportedValue)
    else Ok(Str(FoldFlow(lines)))
  }

  // ------------------------------------------------------- the key pattern

  datatype KeyMatch = KeyMatch(key: string, rest: Option<string>)

  /** A colon, perhaps after white space, that ends the text or is followed by
      white space: `/^\s*:(\s|$)/`. */
  predicate ColonFollows(s: string) {
    var r := TrimStart(s);
    r != "" && r[0] == ':' && (|r| == 1 || IsSpace(r[1]))
  }

  /** The prefix of `s` that `.*` matches. */
  function OneLinePrefix(s: string): string {
    if s == "" || IsLineTerminator(s[0]) then "" else [s[0]] + OneLinePrefix(s[1..])
  }

  /** The match whose key is the first `end` characters. */
  function KeyEndingAt(t: string, end: nat): Option<KeyMatch>
    requires end <= |t|
  {
    if !ColonFollows(t[end..]) then None
    else
      var after := TrimStart(t[end..])[1..];
      Some(KeyMatch(t[..end], if after == "" then None else Some(OneLinePrefix(TrimStart(after)))))
  }

  /** The length of a double-quoted key after its opening quote. */
  function DoubleQuotedSpan(s: string): (r: Option<nat>)
    ensures r.Some? ==> r.value <= |s|
  {
    if s == "" then None
    else if s[0] == '"' then Some(1)
    else if s[0] == '\\' then
      if |s| == 1 || IsLineTerminator(s[1]) then None
      else
        match DoubleQuotedSpan(s[2..])
        case None => None
        case Some(n) => Some(2 + n)
    else
      match DoubleQuotedSpan(s[1..])
      case None => None
      case Some(n) => Some(1 + n)
  }

  /** The length of a single-quoted key after its opening quote. The pattern
      cannot end at the first of two quotes: a colon or white space must follow. */
  function SingleQuotedSpan(s: string): (r: Option<nat>)
    ensures r.Some? ==> r.value <= |s|
  {
    if s == "" then None
    else if s[0] != '\'' then
      match SingleQuotedSpan(s[1..])
      case None => None
      case Some(n) => Some(1 + n)
    else if |s| > 1 && s[1] == '\'' then
      match SingleQuotedSpan(s[2..])
      case None => None
      case Some(n) => Some(2 + n)
    else Some(1)
  }

  /** `[^\s"'#[\]{},&*!|>%@`?-]` */
  predicate IsKeyStart(c: char) { !IsSpace(c) && c !in "\"'#[]{},&*!|>%@`?-" }

  /** A plain key of at least `least` characters ends before the first colon
      after them, white space before the colon left out. */
  function PlainKey(t: string, least: nat): Option<KeyMatch>
    requires least <= |t|
  {
    var colon := IndexOf(t, ":", least);
    if colon == -1 then None else KeyEndingAt(t, |TrimEnd(t[..colon])|)
  }

  /** The `KEY` pattern; its four alternatives differ in their first character. */
  function MatchKey(t: string): Option<KeyMatch> {
    if t == "" then None
    else if t[0] == '"' then
      match DoubleQuotedSpan(t[1..])
      case None => None
      case Some(n) => KeyEndingAt(t, 1 + n)
    else if t[0] == '\'' then
      match SingleQuotedSpan(t[1..])
      case None => None
      case Some(n) => KeyEndingAt(t, 1 + n)
    else if IsKeyStart(t[0]) then PlainKey(t, 1)
    else if t[0] == '-' && |t| > 1 && !IsSpace(t[1]) && t[1] != ':' then PlainKey(t, 2)
    else None
  }

  predicate QuoteThenColon(s: string) {
    s != "" &&
    ((IsQuote(s[0]) && ColonFollows(s[1..])) || (!IsLineTerminator(s[0]) && QuoteThenColon(s[1..])))
  }

  /** `/^["'].*["']\s*:(\s|$)/` */
  predicate LooksLikeQuotedKey(t: string) {
    t != "" && IsQuote(t[0]) && QuoteThenColon(t[1..])
  }

  /** `String(value)` for the value of a key. */
  function KeyText(y: Yaml): string
    requires !IsCollection(y)
  {
    match y
    case Null => "null"
    case Bool(b) => if b then "true" else "false"
    case Int(n) => IntText(n)
    case Decimal(literal) => literal
    case Str(s) => s
  }
}
