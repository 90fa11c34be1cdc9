/**
 Streams of documents (`parseYamlStream` of scripts/check-kubernetes.mjs): a
 stream is read document by document, and a printed stream comes back whole.
 */
module YamlStream {
  import opened Text
  import opened YamlScalars
  import opened YamlDocument
  import opened YamlPrinter
  import opened YamlTokens
  import opened YamlRows
  import opened YamlRoundTrip

  // ---------------------------------------------------------- homomorphism

  lemma {:induction false} DocumentsSplit(a: Rows, b: Rows, current: Rows)
    ensures var r := Documents(a + ["---"] + b, current);
      var first := Documents(a, current);
      var second := Documents(b, []);
      if first.Ok? && second.Ok? then r == Ok(first.value + second.value)
      else if first.Err? then r == first else r == second
  {
    hide IsSeparator, IsForbiddenMarker, WithoutReturn;
    var rows := a + ["---"] + b;
    if a == [] {
      assert rows[0] == "---" && rows[1..] == b;
      MarkerSeparates();
    } else {
      assert rows[0] == a[0] && rows[1..] == a[1..] + ["---"] + b;
      if IsSeparator(a[0]) {
        DocumentsSplit(a[1..], b, []);
        var first, second := Documents(a[1..], []), Documents(b, []);
        if first.Ok? && second.Ok? {
          assert [current] + (first.value + second.value) == [current] + first.value + second.value;
        }
      } else if !IsForbiddenMarker(a[0]) {
        DocumentsSplit(a[1..], b, current + [WithoutReturn(a[0])]);
      }
    }
  }

  lemma MarkerSeparates()
    ensures IsSeparator("---")
  {
  }

  lemma {:induction false} DocumentsParsed(a: seq<Rows>, b: seq<Rows>)
    ensures var r := ParseDocuments(a + b);
      var first := ParseDocuments(a);
      var second := ParseDocuments(b);
      if first.Ok? && second.Ok? then r == Ok(first.value + second.value)
      else if first.Err? then r == first else r == second
  {
    hide ParseDocument;
    if a == [] {
      assert a + b == b;
      assert ParseDocuments(b).Ok? ==> [] + ParseDocuments(b).value == ParseDocuments(b).value;
    } else {
      assert (a + b)[0] == a[0] && (a + b)[1..] == a[1..] + b;
      DocumentsParsed(a[1..], b);
      var d := ParseDocument(a[0]);
      if d.Ok? && ParseDocuments(a[1..]).Ok? && ParseDocuments(b).Ok? {
        var own := if d.value.Some? then [d.value.value] else [];
        var more := ParseDocuments(a[1..]).value;
        assert own + (more + ParseDocuments(b).value) == own + more + ParseDocuments(b).value;
      }
    }
  }

  /** The error of two joined texts is the first one's: a refused marker of the
      second comes before any other error of the first. */
  predicate IsFirstRefused(a: string, b: string) {
    ParseYamlStream(a).Err? && (HasBadMarker(a) || !HasBadMarker(b))
  }

  /** Two texts joined by a `---` line hold the documents of the first, then
      those of the second; the joined text is refused exactly when one of them is,
      with its error. */
  lemma StreamIsHomomorphism(a: string, b: string)
    ensures var r := ParseYamlStream(a + "\n---\n" + b);
      var first := ParseYamlStream(a);
      var second := ParseYamlStream(b);
      if first.Ok? && second.Ok? then r == Ok(first.value + second.value)
      else r == if IsFirstRefused(a, b) then first else second
  {
    hide Split, Documents, ParseDocuments;
    assert a + "\n---\n" + b == a + "\n" + ("---" + "\n" + b);
    SplitJoin(a, "---" + "\n" + b);
    SplitJoin("---", b);
    SplitOneLine("---");
    assert Split(a) + (["---"] + Split(b)) == Split(a) + ["---"] + Split(b);
    DocumentsSplit(Split(a), Split(b), []);
    if Documents(Split(a), []).Ok? && Documents(Split(b), []).Ok? {
      DocumentsParsed(Documents(Split(a), []).value, Documents(Split(b), []).value);
    }
  }

  // ---------------------------------------------------------- printed streams

  /** No printed row ends a line early or is taken for a document marker. */
  predicate StaysInDocument(row: string) {
    '\n' !in row && '\r' !in row
    && (row == "" || row[0] == ' ' || IsQuote(row[0]) || row[0] == '_' || IsLetter(row[0])
        || row == "-" || StartsWith(row, "- "))
  }

  predicate OnOneLine(t: string) { forall c :: c in t ==> !IsLineTerminator(c) }

  lemma TailStays(y: Yaml, style: Style)
    requires Printable(y)
    ensures OnOneLine(Tail(y, style))
  {
    hide Printable, ScalarText, IsToken;
    if !IsNested(y, style) {
      HeadTextIsToken(y, style);
      TokenShape(ScalarText(y, style));
    }
  }

  lemma KeyLineStays(indent: nat, key: string, y: Yaml, style: Style)
    requires Printable(y)
    ensures OnOneLine(KeyLine(key, y, style)) && StaysInDocument(Spaces(indent) + KeyLine(key, y, style))
  {
    hide Printable, Tail, IsToken;
    TailStays(y, style);
    KeyTokenIsToken(key, style);
    TokenShape(KeyToken(key, style));
    KeyTokenLetter(key, style);
    assert forall c :: c in KeyLine(key, y, style) ==> c in KeyToken(key, style) || c == ':' || c in Tail(y, style);
  }

  lemma KeyTokenLetter(key: string, style: Style)
    ensures var t := KeyToken(key, style); t != "" && (IsQuote(t[0]) || t[0] == '_' || IsLetter(t[0]))
  {
  }

  lemma DashLineStarts(y: Yaml, style: Style)
    requires OnOneLine(Tail(y, style))
    ensures OnOneLine(DashLine(y, style)) && (DashLine(y, style) == "-" || StartsWith(DashLine(y, style), "- "))
  {
    hide IsNested, ScalarText;
    if !IsNested(y, style) {
      assert DashLine(y, style)[..2] == "- ";
    }
  }

  lemma DashLineStays(indent: nat, y: Yaml, style: Style)
    requires Printable(y)
    ensures StaysInDocument(Spaces(indent) + DashLine(y, style))
  {
    hide Printable, ScalarText, IsNested;
    TailStays(y, style);
    DashLineStarts(y, style);
    hide DashLine, Tail;
    if indent == 0 {
      assert Spaces(indent) + DashLine(y, style) == DashLine(y, style);
    }
  }

  lemma {:induction false} BlockRowsStay(lines: seq<string>, indent: nat)
    requires indent > 0 && forall line :: line in lines ==> '\n' !in line && '\r' !in line
    ensures forall row :: row in BlockRows(lines, indent) ==> StaysInDocument(row)
  {
    if lines == [] {
    } else {
      BlockRowsStay(lines[1..], indent);
      assert lines[0] in lines;
    }
  }

  lemma {:induction false} SplitHasNoReturn(s: string)
    requires '\r' !in s
    ensures forall row :: row in Split(s) ==> '\r' !in row
  {
    if s == "" {
    } else {
      assert s[0] in s;
      SplitHasNoReturn(s[1..]);
    }
  }

  lemma {:induction false} UnderStays(y: Yaml, indent: nat, inMap: bool, style: Style)
    requires Printable(y)
    ensures forall row :: row in PrintUnder(y, indent, inMap, style) ==> StaysInDocument(row)
    decreases y, 0
  {
    hide StaysInDocument, BlockRows, Split, BlockStart, IsBlank;
    if IsBlock(y) {
      SplitHasNoReturn(y.s);
      SplitHasNoReturn(y.s[..|y.s| - 1]);
      BlockRowsStay(BlockBody(y.s), Column(y, indent, inMap, style));
    } else if y.Map? {
      MapStays(y.entries, Column(y, indent, inMap, style), style);
    } else if y.Seq? {
      SeqStays(y.items, Column(y, indent, inMap, style), style);
    }
  }

  lemma {:induction false} MapStays(entries: seq<Entry>, indent: nat, style: Style)
    requires forall entry :: entry in entries ==> Printable(entry.value)
    ensures forall row :: row in PrintMap(entries, indent, style) ==> StaysInDocument(row)
    decreases entries
  {
    hide StaysInDocument, KeyLine, PrintUnder, Printable;
    if entries == [] {
    } else {
      KeyLineStays(indent, entries[0].key, entries[0].value, style);
      UnderStays(entries[0].value, indent, true, style);
      MapStays(entries[1..], indent, style);
    }
  }

  lemma {:induction false} SeqStays(items: seq<Yaml>, indent: nat, style: Style)
    requires forall item :: item in items ==> Printable(item)
    ensures forall row :: row in PrintSeq(items, indent, style) ==> StaysInDocument(row)
    decreases items
  {
    hide StaysInDocument, PrintItem, Printable;
    if items == [] {
    } else {
      ItemStays(items[0], indent, style);
      SeqStays(items[1..], indent, style);
    }
  }

  lemma {:induction false} ItemStays(y: Yaml, indent: nat, style: Style)
    requires Printable(y)
    ensures forall row :: row in PrintItem(y, indent, style) ==> StaysInDocument(row)
    decreases y, 1
  {
    hide StaysInDocument, PrintMap, PrintUnder, KeyLine, DashLine;
    if IsOnDash(y, style) {
      assert y.entries[0] in y.entries;
      var column := DashColumn(y, indent, style);
      MapStays(y.entries, column, style);
      var under := FirstRow(y.entries, column, style);
      DashedStays(indent, column, y.entries[0].key, y.entries[0].value, style);
    } else {
      DashLineStays(indent, y, style);
      UnderStays(y, indent, false, style);
    }
  }

  lemma DashedStays(indent: nat, column: nat, key: string, y: Yaml, style: Style)
    requires Printable(y) && indent + 2 <= column
    ensures var row := Spaces(column) + KeyLine(key, y, style);
      StaysInDocument(Dashed(indent, column, SliceFrom(row, column)))
  {
    hide Printable, KeyLine;
    KeyLineStays(0, key, y, style);
    var row, body := Spaces(column) + KeyLine(key, y, style), KeyLine(key, y, style);
    assert SliceFrom(row, column) == body;
    var dashed := Dashed(indent, column, body);
    assert forall c :: c in dashed ==> c == ' ' || c == '-' || c in body;
    if indent == 0 {
      assert dashed[..2] == "- ";
    }
  }

  lemma SeparatorStarts(row: string)
    ensures IsSeparator(row) ==> |row| > 1 && row[0] == '-' && row[1] == '-'
  {
    hide TrimEnd;
    var t := TrimEnd(row);
    assert IsSeparator(row) ==> row[0] == t[0] && row[1] == t[1];
  }

  lemma MarkerStarts(row: string)
    ensures IsForbiddenMarker(row) ==>
      row != "" && (row[0] == '.' || row[0] == '%' || (|row| > 1 && row[0] == '-' && row[1] == '-'))
  {
  }

  lemma RowIsNoMarker(row: string)
    requires StaysInDocument(row)
    ensures !IsSeparator(row) && !IsForbiddenMarker(row) && WithoutReturn(row) == row
  {
    hide IsSeparator, IsForbiddenMarker;
    SeparatorStarts(row);
    MarkerStarts(row);
    assert row != "" ==> row[|row| - 1] in row;
  }

  lemma {:induction false} OneDocument(rows: Rows, current: Rows)
    requires forall row :: row in rows ==> StaysInDocument(row)
    ensures Documents(rows, current) == Ok([current + rows])
  {
    hide StaysInDocument, IsSeparator, IsForbiddenMarker, WithoutReturn;
    if rows == [] {
      assert current + rows == current;
    } else {
      RowIsNoMarker(rows[0]);
      OneDocument(rows[1..], current + [rows[0]]);
      assert current + [rows[0]] + rows[1..] == current + rows;
    }
  }

  lemma PrintedStays(y: Yaml, style: Style)
    requires IsNested(y, style) && Printable(y)
    ensures forall row :: row in PrintDocument(y, style) ==> StaysInDocument(row)
  {
    hide StaysInDocument;
    if y.Map? {
      MapStays(y.entries, 0, style);
    } else {
      SeqStays(y.items, 0, style);
    }
  }

  /** A document's text, with or without its last newline, reads as the tree. */
  lemma TextRoundTrip(y: Yaml, style: Style)
    requires IsNested(y, style) && Printable(y)
    ensures ParseYamlStream(Unlines(PrintDocument(y, style))) == Ok([y])
    ensures ParseYamlStream(Join(PrintDocument(y, style))) == Ok([y])
  {
    hide StaysInDocument, PrintDocument, ParseDocument, Split, Documents, Join, Printable, IsBlank;
    var rows := PrintDocument(y, style);
    PrintedStays(y, style);
    StaysOnLine(rows);
    SplitUnlines(rows);
    EmptyStays();
    OneDocument(rows + [""], []);
    EmptyIsBlank();
    DocumentRoundTrip(y, [""], style);
    SplitOfJoin(rows);
    OneDocument(rows, []);
    DocumentRoundTrip(y, [], style);
    assert rows + [] == rows && [] + rows == rows && [] + (rows + [""]) == rows + [""];
    OneParsed(rows, y);
    OneParsed(rows + [""], y);
  }

  lemma EmptyStays()
    ensures StaysInDocument("")
  {
  }

  lemma StaysOnLine(rows: Rows)
    requires forall row :: row in rows ==> StaysInDocument(row)
    ensures forall row :: row in rows ==> '\n' !in row
  {
  }

  lemma OneParsed(rows: Rows, y: Yaml)
    requires ParseDocument(rows) == Ok(Some(y))
    ensures ParseDocuments([rows]) == Ok([y])
  {
    hide ParseDocument;
    assert ParseDocuments([rows][1..]) == Ok([]);
    assert [y] + [] == [y];
  }

  lemma {:induction false} SplitOfJoin(rows: Rows)
    requires |rows| > 0 && forall row :: row in rows ==> '\n' !in row
    ensures Split(Join(rows)) == rows
  {
    hide Split;
    SplitOneLine(rows[0]);
    if |rows| > 1 {
      SplitJoin(rows[0], Join(rows[1..]));
      SplitOfJoin(rows[1..]);
      assert [rows[0]] + rows[1..] == rows;
    } else {
      assert rows == [rows[0]];
    }
  }

  /** Documents as kustomize writes them, `---` lines between. */
  function PrintStream(ys: seq<Yaml>, style: Style): string
    requires |ys| > 0 && forall y :: y in ys ==> IsNested(y, style)
  {
    if |ys| == 1 then Unlines(PrintDocument(ys[0], style))
    else Join(PrintDocument(ys[0], style)) + "\n---\n" + PrintStream(ys[1..], style)
  }

  lemma {:induction false} StreamRoundTrip(ys: seq<Yaml>, style: Style)
    requires |ys| > 0 && forall y :: y in ys ==> IsNested(y, style) && Printable(y)
    ensures ParseYamlStream(PrintStream(ys, style)) == Ok(ys)
  {
    hide ParseYamlStream, PrintDocument, Join, Unlines, Printable;
    TextRoundTrip(ys[0], style);
    if |ys| == 1 {
      assert ys == [ys[0]];
    } else {
      StreamRoundTrip(ys[1..], style);
      StreamIsHomomorphism(Join(PrintDocument(ys[0], style)), PrintStream(ys[1..], style));
      assert [ys[0]] + ys[1..] == ys;
    }
  }
}
