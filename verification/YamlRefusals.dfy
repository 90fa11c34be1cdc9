/**
 What the two YAML readers take a plain word for, and what they refuse: a
 construct they do not know, a repeated key and a line out of place end the
 reading with an error instead of being misread.
 */
module YamlRefusals {
  import opened Text
  import opened YamlScalars
  import opened YamlDocument
  import opened YamlPrinter
  import opened YamlTokens
  import opened YamlRows
  import opened YamlRoundTrip
  import opened YamlWrapping
  import O = ObservabilityYaml
  import A = YamlAgreement

  // ------------------------------------------------------------------ numbers

  predicate IsDigits(t: string) { t != "" && forall c :: c in t ==> IsDigit(c) }

  predicate IsSign(t: string) { t == "" || t == "-" || t == "+" }

  lemma {:induction false} RunOfDigits(a: string, x: string)
    requires (forall c :: c in a ==> IsDigit(c)) && (x == "" || !IsDigit(x[0]))
    ensures DigitRun(a + x) == |a|
  {
    if a == "" {
      assert a + x == x;
    } else {
      assert a[0] in a;
      assert (a + x)[1..] == a[1..] + x;
      RunOfDigits(a[1..], x);
    }
  }

  lemma DigitsAll(t: string)
    ensures AllDigits(t) <==> IsDigits(t)
  {
    if IsDigits(t) {
      RunOfDigits(t, "");
      assert t + "" == t;
    }
    if AllDigits(t) {
      forall c | c in t ensures IsDigit(c) {
        var k :| 0 <= k < |t| && t[k] == c;
      }
    }
  }

  lemma SignedIs(sign: string, u: string)
    requires IsSign(sign) && (u == "" || (u[0] != '-' && u[0] != '+'))
    ensures Unsigned(sign + u) == u
  {
    if sign == "" {
      assert sign + u == u;
    } else {
      assert (sign + u)[1..] == u;
    }
  }

  function SignOf(t: string): string {
    if t != "" && (t[0] == '-' || t[0] == '+') then t[..1] else ""
  }

  lemma SignSplits(t: string)
    ensures t == SignOf(t) + Unsigned(t) && IsSign(SignOf(t))
  {
    if t != "" && (t[0] == '-' || t[0] == '+') {
      assert t[..1] == [t[0]] && t == t[..1] + t[1..];
    } else {
      assert "" + t == t;
    }
  }

  /** An integer text is digits, perhaps after one sign. */
  lemma IntegerTextIs(t: string)
    ensures IsIntegerText(t) <==> exists sign, digits :: IsSign(sign) && IsDigits(digits) && t == sign + digits
  {
    if IsIntegerText(t) {
      SignSplits(t);
      DigitsAll(Unsigned(t));
      assert IsSign(SignOf(t)) && IsDigits(Unsigned(t)) && t == SignOf(t) + Unsigned(t);
    }
    if sign, digits :| IsSign(sign) && IsDigits(digits) && t == sign + digits {
      assert digits[0] in digits;
      SignedIs(sign, digits);
      DigitsAll(digits);
    }
  }

  /** The pieces of a decimal: digits on one side of the point at least, and an
      exponent, if any, of an `e` and an integer text. */
  datatype Pieces = Pieces(sign: string, whole: string, fraction: string, exponent: string)

  predicate IsExponentText(e: string) {
    e == "" || ((e[0] == 'e' || e[0] == 'E') && IsIntegerText(e[1..]))
  }

  predicate ArePieces(p: Pieces) {
    IsSign(p.sign) && (p.whole != "" || p.fraction != "")
    && (forall c :: c in p.whole ==> IsDigit(c)) && (forall c :: c in p.fraction ==> IsDigit(c)) && IsExponentText(p.exponent)
  }

  function PiecesText(p: Pieces): string { p.sign + (p.whole + ("." + (p.fraction + p.exponent))) }

  lemma FractionJoins(fraction: string, exponent: string, hasWhole: bool)
    requires (hasWhole || fraction != "") && (forall c :: c in fraction ==> IsDigit(c)) && IsExponentText(exponent)
    ensures IsFraction("." + (fraction + exponent), hasWhole)
  {
    hide DigitRun, IsDigit, AllDigits;
    var s := fraction + exponent;
    ExponentStart(exponent);
    RunOfDigits(fraction, exponent);
    assert ("." + s)[1..] == s && s[|fraction|..] == exponent;
  }

  lemma ExponentStart(e: string)
    requires IsExponentText(e)
    ensures e == "" || !IsDigit(e[0])
  {
  }

  lemma PiecesAreDecimal(p: Pieces)
    requires ArePieces(p)
    ensures IsDecimalText(PiecesText(p))
  {
    hide DigitRun, IsFraction, IsExponentText;
    var s := "." + (p.fraction + p.exponent);
    var u := p.whole + s;
    PlainStart(p.whole, s);
    SignedIs(p.sign, u);
    RunOfDigits(p.whole, s);
    FractionJoins(p.fraction, p.exponent, p.whole != "");
    assert u[|p.whole|..] == s;
  }

  lemma PlainStart(whole: string, s: string)
    requires (forall c :: c in whole ==> IsDigit(c)) && s != "" && s[0] == '.'
    ensures var u := whole + s; u[0] != '-' && u[0] != '+' && !IsDigit(s[0])
  {
    if whole != "" {
      assert (whole + s)[0] == whole[0] && whole[0] in whole;
    }
  }

  lemma DigitsOf(t: string)
    ensures forall c :: c in t[..DigitRun(t)] ==> IsDigit(c)
  {
  }

  lemma DigitsAndRest(t: string)
    ensures t == t[..DigitRun(t)] + t[DigitRun(t)..]
  {
  }

  /** A fraction after its point: digits, then an exponent. */
  lemma FractionSplits(s: string, hasWhole: bool)
    requires IsFraction(s, hasWhole)
    ensures s != ""
    ensures var t := s[1..]; var f := DigitRun(t);
      s == "." + (t[..f] + t[f..]) && (hasWhole || t[..f] != "") && IsExponentText(t[f..])
      && forall c :: c in t[..f] ==> IsDigit(c)
  {
    hide DigitRun;
    DigitsOf(s[1..]);
    DigitsAndRest(s[1..]);
  }

  lemma DecimalHasPieces(t: string) returns (p: Pieces)
    requires IsDecimalText(t)
    ensures ArePieces(p) && t == PiecesText(p)
  {
    hide DigitRun, IsFraction, IsExponentText;
    var u := Unsigned(t);
    var w := DigitRun(u);
    SignSplits(t);
    DigitsOf(u);
    DigitsAndRest(u);
    FractionSplits(u[w..], w > 0);
    var s := u[w..][1..];
    p := Pieces(SignOf(t), u[..w], s[..DigitRun(s)], s[DigitRun(s)..]);
  }

  /** A decimal text is such pieces. */
  lemma DecimalTextIs(t: string)
    ensures IsDecimalText(t) <==> exists p :: ArePieces(p) && t == PiecesText(p)
  {
    hide IsDecimalText, ArePieces, PiecesText;
    if IsDecimalText(t) {
      var p := DecimalHasPieces(t);
    }
    if p :| ArePieces(p) && t == PiecesText(p) {
      PiecesAreDecimal(p);
    }
  }

  // ----------------------------------------------------------- one plain word

  /** What a word that starts with no quote and no bracket is read as: a refused
      start, a word of its own, a number, or itself. */
  lemma PlainWordExactly(t: string)
    requires t == "" || (!IsQuote(t[0]) && t[0] != '[' && t[0] != '{')
    ensures var r := OneLine(t);
      (r.Err? <==> t != "" && (t[0] in "]}&*!%@`|>?" || (t[0] == '-' && |t| > 1 && t[1] == ' ')))
      && (r == Ok(Null) <==> t == "null" || t == "~")
      && (r == Ok(Bool(true)) <==> t == "true") && (r == Ok(Bool(false)) <==> t == "false")
      && (r.Ok? && r.value.Int? <==> IsIntegerText(t)) && (r.Ok? && r.value.Decimal? <==> IsDecimalText(t))
      && (r.Ok? && r.value.Str? ==> r.value.s == t) && (r.Ok? ==> !IsCollection(r.value))
  {
    PlainOneLine(t);
    PlainStarts(t);
    WordsArePlain(t);
    hide OneLine, IsIntegerText, IsDecimalText, IntegerValue, IsIndicator;
    NumbersStart(t);
    DashItem(t);
  }

  lemma PlainOneLine(t: string)
    requires t == "" || (!IsQuote(t[0]) && t[0] != '[' && t[0] != '{')
    ensures OneLine(t) == PlainScalar(t)
  {
    hide PlainScalar, DoubleQuotedFrom, SingleQuotedFrom, FlowItems, FlowScalars;
  }

  lemma PlainStarts(t: string)
    ensures t != "" && t[0] != '[' && t[0] != '{' ==> (IsIndicator(t[0]) <==> t[0] in "]}&*!%@`|>?")
  {
  }

  lemma WordsArePlain(t: string)
    ensures t in {"true", "false", "null", "~"} ==> !IsIndicator(t[0]) && !StartsWith(t, "- ")
  {
    if t in {"true", "false", "null", "~"} {
      WordStart(t);
    }
  }

  lemma DashItem(t: string)
    ensures StartsWith(t, "- ") <==> |t| > 1 && t[0] == '-' && t[1] == ' '
  {
  }

  /** A number starts with no indicator, is no word, and is of one kind. */
  lemma NumbersStart(t: string)
    ensures IsIntegerText(t) || IsDecimalText(t) ==>
      t != "" && !IsIndicator(t[0]) && !StartsWith(t, "- ") && t !in {"true", "false", "null", "~"}
    ensures !(IsIntegerText(t) && IsDecimalText(t))
  {
    if IsDecimalText(t) {
      DecimalChars(t);
      DecimalIsNoInteger(t);
      assert IsNumberChar(t[0]);
      NumberCharStart(t);
    } else if IsIntegerText(t) {
      IntegerChars(t);
      assert IsNumberChar(t[0]);
      NumberCharStart(t);
    }
  }

  lemma IntegerChars(t: string)
    requires IsIntegerText(t)
    ensures t != "" && t != "-" && NumberChars(t)
  {
    SignedChars(t);
  }

  lemma NumberCharStart(t: string)
    requires t != "" && t != "-" && NumberChars(t)
    ensures !IsIndicator(t[0]) && !StartsWith(t, "- ") && t !in {"true", "false", "null", "~"}
  {
    hide IsDigit;
    DigitIsPlain();
    assert IsNumberChar(t[0]) && (|t| > 1 ==> IsNumberChar(t[1]));
    if t in {"true", "false", "null", "~"} {
      WordStart(t);
    }
  }

  lemma WordStart(t: string)
    requires t in {"true", "false", "null", "~"}
    ensures t[0] in {'t', 'f', 'n', '~'}
  {
  }

  lemma DigitIsPlain()
    ensures forall c :: IsNumberChar(c) ==> !IsIndicator(c) && c != ' ' && c != 't' && c != 'f' && c != 'n' && c != '~'
  {
  }

  lemma IntegerIs(sign: string, digits: string)
    requires IsSign(sign) && IsDigits(digits)
    ensures var n: int := DigitsValue(digits); OneLine(sign + digits) == Ok(Int(if sign == "-" then -n else n))
  {
    hide DigitsValue, DigitRun, IsIntegerText, OneLine;
    var t := sign + digits;
    assert digits[0] in digits;
    IntegerTextIs(t);
    SignedIs(sign, digits);
    IntegerReads(t);
  }

  lemma IntegerReads(t: string)
    requires IsIntegerText(t)
    ensures OneLine(t) == Ok(Int(IntegerValue(t)))
  {
    hide IsIntegerText, IntegerValue, IsDecimalText, DoubleQuotedFrom, SingleQuotedFrom, FlowItems, FlowScalars;
    IntegerChars(t);
    NumberScalar(t);
  }

  /** An anchor, alias, tag, directive and the like is refused as a value, on one
      line or on more, never read as text. */
  lemma UnsupportedRefused(t: string, parts: seq<string>)
    requires t != "" && t[0] in "]}&*!%@`|>?"
    ensures InlineScalar([t] + parts) == Err(UnsupportedValue)
  {
    hide FlowItems, FlowScalars, DoubleQuotedFrom, SingleQuotedFrom, Join;
    assert IsIndicator(t[0]) && !IsQuote(t[0]);
    if parts == [] {
      assert [t] + parts == [t];
    }
  }

  /** A collection inside a list in brackets is refused. */
  lemma NestedFlowRefused(inner: string)
    requires exists c :: c in inner && c in "[]{}"
    ensures OneLine("[" + inner + "]") == Err(NestedFlow)
  {
    hide FlowItems, FlowScalars, DoubleQuotedFrom, SingleQuotedFrom;
    var t := "[" + inner + "]";
    assert t[1..|t| - 1] == inner;
    assert exists c :: c in inner && IsFlowBracket(c);
  }

  // ------------------------------------------------------------- block headers

  lemma HeaderTextOf(t: string) returns (folded: bool, indicator: Option<nat>, chomp: string, chompFirst: bool)
    requires TrimEnd(t) == t && ParseHeader(t).Some?
    ensures (indicator.Some? ==> 1 <= indicator.value <= 9) && IsChomping(chomp)
    ensures t == HeaderText(folded, indicator, chomp, chompFirst)
  {
    hide TrimEnd;
    folded, indicator, chomp, chompFirst := t[0] == '>', None, "", false;
    if |t| == 2 && IsIndentDigit(t[1]) {
      indicator := Some(t[1] as int - '0' as int);
    } else if |t| == 2 {
      chomp := [t[1]];
    } else if |t| == 3 && IsIndentDigit(t[1]) {
      indicator, chomp := Some(t[1] as int - '0' as int), [t[2]];
    } else if |t| == 3 {
      indicator, chomp, chompFirst := Some(t[2] as int - '0' as int), [t[1]], true;
    }
    assert t == [t[0]] + t[1..];
  }

  /** A block header is a mark, an indicator from 1 to 9 or none, and a chomping or
      none, in either order; nothing else is taken. */
  lemma HeaderExactly(t: string)
    requires TrimEnd(t) == t
    ensures ParseHeader(t).Some? <==>
      exists folded, indicator: Option<nat>, chomp, chompFirst ::
        (indicator.Some? ==> 1 <= indicator.value <= 9) && IsChomping(chomp)
        && t == HeaderText(folded, indicator, chomp, chompFirst)
  {
    hide ParseHeader, HeaderText, IsChomping, TrimEnd;
    if ParseHeader(t).Some? {
      var folded, indicator, chomp, chompFirst := HeaderTextOf(t);
    }
    if folded, indicator: Option<nat>, chomp, chompFirst :|
      (indicator.Some? ==> 1 <= indicator.value <= 9) && IsChomping(chomp)
      && t == HeaderText(folded, indicator, chomp, chompFirst)
    {
      HeaderParses(folded, indicator, chomp, chompFirst);
    }
  }

  // --------------------------------------------------------- lines out of place

  /** A tab in the indentation of a line with content. */
  lemma TabRefused(row: string, rest: Rows)
    requires Trim(StripComment(row)) != "" && LeadingSpaces(row) < |row| && row[LeadingSpaces(row)] == '\t'
    ensures Skip([row] + rest) == Err(TabIndentation)
  {
    hide StripComment, Trim, LeadingSpaces;
    SkipStep([row] + rest);
  }

  /** A line deeper than the entries or items it follows. */
  lemma DeeperRefused(row: string, rest: Rows, indent: nat, entries: seq<Entry>, items: seq<Yaml>)
    requires HasContent(row) && LineOf(row).indent > indent
    ensures !IsItem(LineOf(row).text) ==> MapFrom([row] + rest, indent, entries) == Err(UnexpectedIndentation)
    ensures IsItem(LineOf(row).text) ==> SequenceFrom([row] + rest, indent, items) == Err(UnexpectedIndentation)
  {
    hide HasContent, LineOf, IsItem, MapFrom, SequenceFrom, MapEntry, Item, Skip;
    SkipContent([row] + rest);
    MapStep([row] + rest, indent, entries);
    SequenceStep([row] + rest, indent, items);
  }

  /** A line among entries that is no key, and a dash right after a dash. */
  lemma ShapeRefused(row: string, rest: Rows, indent: nat, entries: seq<Entry>)
    requires HasContent(row)
    ensures MatchKey(LineOf(row).text).None? ==> MapEntry([row] + rest, indent, entries) == Err(ExpectedKey)
    ensures var text := LineOf(row).text;
      IsItem(text) && ItemRest(text) != "" && IsItem(ItemRest(text)) ==> Item([row] + rest, indent) == Err(NestedInlineSequence)
  {
    hide HasContent, LineOf, IsItem, MatchKey, ItemRest, OneLine, KeyText, WrittenValue, Uncommenting, Value, MapFrom;
  }

  // ------------------------------------------------------------- repeated keys

  lemma RepeatedEntry(indent: nat, key: string, y: Yaml, out: seq<Entry>, rest: Rows, style: Style)
    requires Printable(y) && HasKey(out, key)
    ensures var row := Spaces(indent) + KeyLine(key, y, style);
      HasContent(row) && MapEntry([row] + rest, indent, out) == Err(DuplicateKey)
  {
    hide Value, HasContent, LineOf, MatchKey, KeyLine, OneLine, HasKey, KeyText, Printable, IndexOf, SliceFrom, Trim,
      Uncommenting, ScalarText, KeyToken, WrittenValue;
    KeyRow(indent, key, y, style);
    KeyMatched(key, y, style);
    KeyReads(key, style);
  }

  /** A printed map in which a key comes twice is refused, wherever it comes again. */
  lemma {:induction false} RepeatedKeyRefused(entries: seq<Entry>, indent: nat, out: seq<Entry>, tail: Rows, style: Style)
    requires forall entry :: entry in entries ==> Printable(entry.value)
    requires DistinctKeys(out) && !DistinctKeys(out + entries) && Ends(tail, indent - 1, true)
    ensures MapFrom(PrintMap(entries, indent, style) + tail, indent, out) == Err(DuplicateKey)
    decreases entries
  {
    hide Ends, HasContent, LineOf, Skip, PrintMap, PrintUnder, Printable, MapFrom, MapEntry, Value, KeyLine, HasKey, DistinctKeys,
      HeadText;
    if entries == [] {
      NothingMore(out);
    } else {
      var e := entries[0];
      var next := PrintMap(entries[1..], indent, style) + tail;
      var more := PrintUnder(e.value, indent, true, style) + next;
      MapOpens(entries, indent, out, tail, style);
      if HasKey(out, e.key) {
        RepeatedEntry(indent, e.key, e.value, out, more, style);
      } else {
        MapEnds(entries[1..], indent, tail, style);
        var rest := ValueRoundTrip(e.value, indent, true, next, style);
        EntryReads(indent, e.key, e.value, out, more, Parsed(e.value, rest), style);
        assert Entry(e.key, e.value) == e;
        MapFromSkip(rest, next, indent, out + [e]);
        OneKeyMore(out, e);
        assert out + [e] + entries[1..] == out + entries;
        RepeatedKeyRefused(entries[1..], indent, out + [e], tail, style);
      }
    }
  }

  /** A printed map is read entry by entry. */
  lemma MapOpens(entries: seq<Entry>, indent: nat, out: seq<Entry>, tail: Rows, style: Style)
    requires entries != [] && Printable(entries[0].value)
    ensures var e := entries[0];
      var rows := [Spaces(indent) + KeyLine(e.key, e.value, style)]
                  + (PrintUnder(e.value, indent, true, style) + (PrintMap(entries[1..], indent, style) + tail));
      HasContent(rows[0])
      && MapFrom(PrintMap(entries, indent, style) + tail, indent, out)
         == if MapEntry(rows, indent, out).Err? then Err(MapEntry(rows, indent, out).error)
            else
              MapFrom(MapEntry(rows, indent, out).value.rest, indent, out + [MapEntry(rows, indent, out).value.value])
  {
    hide HasContent, LineOf, IsItem, Skip, PrintUnder, Printable, MapFrom, MapEntry, KeyLine;
    var e := entries[0];
    var rows := PrintMap(entries, indent, style) + tail;
    MapStart(entries, indent, style);
    assert rows == [Spaces(indent) + KeyLine(e.key, e.value, style)]
                   + (PrintUnder(e.value, indent, true, style) + (PrintMap(entries[1..], indent, style) + tail));
    SkipContent(rows);
    MapStep(rows, indent, out);
  }

  lemma NothingMore(out: seq<Entry>)
    ensures out + [] == out
  {
  }

  lemma OneKeyMore(out: seq<Entry>, e: Entry)
    requires DistinctKeys(out) && !HasKey(out, e.key)
    ensures DistinctKeys(out + [e])
  {
  }

  /** A printed map of printable values is read exactly when its keys differ. */
  lemma MapReadsExactly(entries: seq<Entry>, style: Style)
    requires entries != [] && forall entry :: entry in entries ==> Printable(entry.value)
    ensures ParseDocument(PrintMap(entries, 0, style)) == if DistinctKeys(entries) then Ok(Some(Map(entries))) else Err(DuplicateKey)
  {
    hide Printable, PrintMap, MapFrom, Skip, HasContent, LineOf, IsItem, Ends;
    var rows := PrintMap(entries, 0, style);
    assert [] + entries == entries && rows + [] == rows;
    BlanksEnd([]);
    MapStart(entries, 0, style);
    SkipContent(rows);
    if DistinctKeys(entries) {
      MapRoundTrip(entries, 0, [], [], style);
      BlanksSkipped();
    } else {
      NoKeysDiffer();
      RepeatedKeyRefused(entries, 0, [], [], style);
    }
  }

  lemma NoKeysDiffer()
    ensures DistinctKeys([])
  {
  }

  // -------------------------------------------------------------- the stream

  /** A stream is refused for its markers exactly when a line opens with `...`, `%`
      or `--- ` and is no plain separator. */
  lemma {:induction false} MarkersExactly(rows: Rows, current: Rows)
    ensures Documents(rows, current).Err? <==>
      exists k :: 0 <= k < |rows| && !IsSeparator(rows[k]) && IsForbiddenMarker(rows[k])
    decreases |rows|
  {
    hide IsSeparator, IsForbiddenMarker, WithoutReturn;
    if rows == [] {
    } else if IsSeparator(rows[0]) {
      MarkersExactly(rows[1..], []);
    } else if !IsForbiddenMarker(rows[0]) {
      MarkersExactly(rows[1..], current + [WithoutReturn(rows[0])]);
    }
  }

  // --------------------------------------------------------- the smaller reader

  /** What the smaller reader takes for a number: digits, perhaps after a minus,
      perhaps with digits after a point. */
  predicate IsPlainNumber(sign: string, whole: string, fraction: string) {
    (sign == "" || sign == "-") && IsDigits(whole)
    && (fraction == "" || (fraction[0] == '.' && IsDigits(fraction[1..])))
  }

  lemma NumberTextHas(t: string) returns (sign: string, whole: string, fraction: string)
    requires O.IsNumberText(t)
    ensures IsPlainNumber(sign, whole, fraction) && t == sign + (whole + fraction)
  {
    hide DigitRun;
    var u := if t != "" && t[0] == '-' then t[1..] else t;
    var w := DigitRun(u);
    sign, whole, fraction := if t != "" && t[0] == '-' then "-" else "", u[..w], u[w..];
    DigitsOf(u);
    DigitsAndRest(u);
    if w < |u| {
      DigitsAll(u[w + 1..]);
      assert fraction[1..] == u[w + 1..];
    }
  }

  lemma PlainNumberIs(sign: string, whole: string, fraction: string)
    requires IsPlainNumber(sign, whole, fraction)
    ensures O.IsNumberText(sign + (whole + fraction))
  {
    hide DigitRun;
    var u := whole + fraction;
    var t := sign + u;
    assert u[0] == whole[0] && whole[0] in whole;
    if sign == "" {
      assert t == u;
    } else {
      assert t[1..] == u;
    }
    RunOfDigits(whole, fraction);
    if fraction != "" {
      assert u[|whole| + 1..] == fraction[1..];
      DigitsAll(fraction[1..]);
    }
  }

  lemma NumberTextIs(t: string)
    ensures O.IsNumberText(t) <==>
      exists sign, whole, fraction :: IsPlainNumber(sign, whole, fraction) && t == sign + (whole + fraction)
  {
    hide O.IsNumberText, IsPlainNumber;
    if O.IsNumberText(t) {
      var sign, whole, fraction := NumberTextHas(t);
    }
    if sign, whole, fraction :| IsPlainNumber(sign, whole, fraction) && t == sign + (whole + fraction) {
      PlainNumberIs(sign, whole, fraction);
    }
  }

  /** What the smaller reader takes a word for. */
  lemma SmallWordExactly(t: string)
    requires t == "" || (!IsQuote(t[0]) && t[0] != '[')
    ensures var r := O.Scalar(t);
      (r.Err? <==> t != "" && t[0] in "{|>&*!%@`")
      && (r == Ok(Null) <==> t == "null" || t == "~")
      && (r == Ok(Bool(true)) <==> t == "true") && (r == Ok(Bool(false)) <==> t == "false")
      && (r.Ok? && (r.value.Int? || r.value.Decimal?) <==> O.IsNumberText(t))
      && (r.Ok? && r.value.Str? ==> r.value.s == t) && (r.Ok? ==> !IsCollection(r.value))
  {
    SmallIsWord(t);
    SmallStarts(t);
    hide O.Scalar, O.IsNumberText, O.Number, O.IsUnsupportedStart;
    SmallNumber(t);
  }

  lemma SmallIsWord(t: string)
    requires t == "" || (!IsQuote(t[0]) && t[0] != '[')
    ensures O.Scalar(t) == O.Word(t)
  {
    hide O.Word, O.SplitFlow, O.Scalars;
  }

  lemma SmallStarts(t: string)
    ensures t != "" ==> (O.IsUnsupportedStart(t[0]) <==> t[0] in "{|>&*!%@`")
    ensures t in {"true", "false", "null", "~"} ==> !O.IsUnsupportedStart(t[0])
  {
    if t in {"true", "false", "null", "~"} {
      WordStart(t);
    }
  }

  lemma SmallNumber(t: string)
    ensures O.Number(t).Int? || O.Number(t).Decimal?
    ensures O.IsNumberText(t) ==>
      t != "" && !O.IsUnsupportedStart(t[0]) && t !in {"true", "false", "null", "~"}
  {
    hide O.IsNumberText, IsIntegerText, IntegerValue, IsDigits;
    if O.IsNumberText(t) {
      var sign, whole, fraction := NumberTextHas(t);
      SmallNumberStart(t, sign, whole, fraction);
      if t in {"true", "false", "null", "~"} {
        WordStart(t);
      }
    }
  }

  lemma SmallNumberStart(t: string, sign: string, whole: string, fraction: string)
    requires IsPlainNumber(sign, whole, fraction) && t == sign + (whole + fraction)
    ensures t != "" && (t[0] == '-' || IsDigit(t[0])) && t[0] !in "{|>&*!%@`tfn~"
  {
    assert whole[0] in whole;
    if sign == "" {
      assert t[0] == whole[0];
    }
    StartIsPlain(t[0]);
  }

  lemma StartIsPlain(c: char)
    requires c == '-' || IsDigit(c)
    ensures c !in "{|>&*!%@`tfn~"
  {
  }

  /** Text in quotes is taken as it stands, closed or refused; nothing is decoded. */
  lemma SmallQuotedExactly(quote: char, s: string)
    requires IsQuote(quote)
    ensures O.Scalar([quote] + s + [quote]) == Ok(Str(s))
    ensures s == "" || s[|s| - 1] != quote ==> O.Scalar([quote] + s) == Err(Unterminated)
  {
    var t := [quote] + s + [quote];
    assert t[1..|t| - 1] == s;
  }

  lemma SmallRepeatedKey(indent: nat, e: Entry, out: seq<Entry>, lines: O.Lines, style: Style)
    requires A.Common(e.value) && A.CommonKey(e.key) && HasKey(out, e.key)
    ensures O.MapFrom([A.ToLine(Spaces(indent) + KeyLine(e.key, e.value, style))] + lines, indent, out) == Err(DuplicateKey)
  {
    hide A.ToLine, O.IsItem, O.Scalar, O.MatchEntry, O.EntryValue, KeyLine, A.Common, A.CommonKey, KeyText, ScalarText, HasKey;
    A.KeyRowLine(indent, e.key, e.value, style);
    A.EntryMatched(e.key, e.value, style);
    A.KeyAgrees(e.key, style);
  }

  /** A tab in the indentation, and a line that is a document marker. */
  lemma SmallLinesRefused(row: string, rest: Rows)
    requires Trim(TrimEnd(O.WithoutComment(row))) != ""
    ensures '\t' in O.Leading(TrimEnd(O.WithoutComment(row))) ==> O.Filtered([row] + rest) == Err(TabIndentation)
    ensures '\t' !in O.Leading(TrimEnd(O.WithoutComment(row))) && Trim(TrimEnd(O.WithoutComment(row))) in {"---", "..."} ==>
      O.Filtered([row] + rest) == Err(UnsupportedMarker)
  {
    hide O.Kept, Trim, TrimEnd, O.Leading;
  }

  /** A line among entries that is none, and a dash with nothing on it or below it. */
  lemma SmallShapeRefused(indent: nat, text: string, lines: O.Lines, entries: seq<Entry>)
    ensures !O.IsItem(text) && O.MatchEntry(text).None? ==>
      O.MapFrom([O.Line(indent, text)] + lines, indent, entries) == Err(ExpectedKey)
    ensures lines == [] || lines[0].indent <= indent ==>
      O.Item([O.Line(indent, "-")] + lines, indent) == Err(EmptySequenceItem)
  {
    hide O.IsItem, O.MatchEntry, O.Block, O.Scalar;
    assert O.ItemRest("-") == "" && O.IsItem("-") by {
      SmallDash();
    }
  }

  lemma SmallDash()
    ensures O.IsItem("-") && O.ItemRest("-") == ""
  {
  }
}
