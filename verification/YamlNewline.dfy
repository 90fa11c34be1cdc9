/**
 The newline at the end of a text (scripts/check-kubernetes.mjs): it is one empty
 row more, which changes what is read exactly when the last value is a block
 scalar that keeps its trailing lines and runs to the end.
 */
module YamlNewline {
  import opened Text
  import opened YamlScalars
  import opened YamlDocument
  import opened YamlRoundTrip
  import opened YamlStream

  // ------------------------------------------ where a kept block ends the rows

  /** The block scalar keeps its trailing lines, and every row left is one of its
      lines. */
  predicate KeepsBlock(rows: Rows, headerText: string, parent: nat) {
    match ParseHeader(Trim(StripComment(headerText)))
    case None => false
    case Some(h) => h.chomp == "+" && |BlockLines(rows, parent, StartOf(h, parent))| == |rows|
  }

  function StartOf(h: Header, parent: nat): Option<nat> {
    if h.indicator > 0 then Some(parent + h.indicator) else None
  }

  predicate KeepsValue(rows: Rows, text: string, parent: nat, inMap: bool)
    decreases |rows|, HeadSize(rows), 3
  {
    if text == "" then
      Skip(rows).Ok? && Skip(rows).value != [] &&
      var after := Skip(rows).value;
      if LineOf(after[0]).indent > parent then KeepsNode(after, LineOf(after[0]).indent)
      else inMap && LineOf(after[0]).indent == parent && IsItem(LineOf(after[0]).text) && KeepsSequence(after, parent, [])
    else (text[0] == '|' || text[0] == '>') && KeepsBlock(rows, text, parent)
  }

  predicate KeepsEntry(rows: Rows, indent: nat, out: seq<Entry>)
    requires rows != [] && HasContent(rows[0])
    decreases |rows|, HeadSize(rows), 0
  {
    MapEntry(rows, indent, out).Ok?
    && KeepsValue(rows[1..], Uncommenting(WrittenValue(LineOf(rows[0]), MatchKey(LineOf(rows[0]).text).value)), indent, true)
  }

  predicate KeepsMap(rows: Rows, indent: nat, out: seq<Entry>)
    decreases |rows|, HeadSize(rows), 1
  {
    Skip(rows).Ok? && Skip(rows).value != [] &&
    var after := Skip(rows).value;
    LineOf(after[0]).indent == indent && !IsItem(LineOf(after[0]).text)
    && (KeepsEntry(after, indent, out)
        || (MapEntry(after, indent, out).Ok? &&
            var entry := MapEntry(after, indent, out).value;
            KeepsMap(entry.rest, indent, out + [entry.value])))
  }

  predicate KeepsItem(rows: Rows, indent: nat)
    requires rows != [] && HasContent(rows[0]) && IsItem(LineOf(rows[0]).text)
    decreases |rows|, HeadSize(rows), 0
  {
    var line := LineOf(rows[0]);
    var rest := ItemRest(line.text);
    if rest == "" then KeepsValue(rows[1..], "", indent, false)
    else if IsItem(rest) then false
    else if OpensMap(rest) then
      RewriteShrinks(rows);
      KeepsMap([WithoutDash(line)] + rows[1..], ChildIndent(line), [])
    else KeepsValue(rows[1..], Uncommenting(ItemValue(line)), indent, false)
  }

  predicate KeepsSequence(rows: Rows, indent: nat, out: seq<Yaml>)
    decreases |rows|, HeadSize(rows), 1
  {
    Skip(rows).Ok? && Skip(rows).value != [] &&
    var after := Skip(rows).value;
    LineOf(after[0]).indent == indent && IsItem(LineOf(after[0]).text)
    && (KeepsItem(after, indent)
        || (Item(after, indent).Ok? &&
            var item := Item(after, indent).value;
            KeepsSequence(item.rest, indent, out + [item.value])))
  }

  predicate KeepsNode(rows: Rows, indent: nat)
    requires Skip(rows) == Ok(rows) && rows != []
    decreases |rows|, HeadSize(rows), 2
  {
    if IsItem(LineOf(rows[0]).text) then KeepsSequence(rows, indent, []) else KeepsMap(rows, indent, [])
  }

  /** The last value of the document is a kept block that runs to the end. */
  predicate EndsInKeep(rows: Rows) {
    Skip(rows).Ok? && Skip(rows).value != [] && KeepsNode(Skip(rows).value, LineOf(Skip(rows).value[0]).indent)
  }

  // --------------------------------------------------------- one empty row more

  /** What is left with the empty row at the end, beside what is left without. */
  predicate Longer(more: Rows, rest: Rows) {
    more == rest + [""] || (more == [] && rest == [])
  }

  /** The empty row is only left over, or was skipped. */
  predicate IsSame<T(==)>(more: Outcome<T>, plain: Outcome<T>) {
    if plain.Err? then more == plain
    else more.Ok? && more.value.value == plain.value.value && Longer(more.value.rest, plain.value.rest)
  }

  /** The empty row went into the value, and no content is left. */
  predicate IsChanged<T(==)>(more: Outcome<T>, plain: Outcome<T>) {
    more.Ok? && plain.Ok? && more.value.value != plain.value.value
    && Skip(more.value.rest) == Ok([]) && Skip(plain.value.rest) == Ok([])
  }

  predicate Extends<T(==)>(more: Outcome<T>, plain: Outcome<T>, keeps: bool) {
    if keeps then IsChanged(more, plain) else IsSame(more, plain)
  }

  lemma EmptyRow()
    ensures IsBlank("") && Info("") == Ok(Line("", 0, ""))
  {
    BlankInfo("");
  }

  lemma {:induction false} SkipExtends(rows: Rows)
    ensures Skip(rows).Err? ==> Skip(rows + [""]) == Skip(rows)
    ensures Skip(rows).Ok? ==> Skip(rows + [""]) == Ok(if Skip(rows).value == [] then [] else Skip(rows).value + [""])
  {
    hide Info;
    EmptyRow();
    if rows == [] {
      assert rows + [""] == [""] && [""][1..] == [];
      SkipStep([""]);
      SkipStep([]);
    } else {
      assert (rows + [""])[1..] == rows[1..] + [""];
      SkipExtends(rows[1..]);
    }
  }

  // ------------------------------------------------------------- block scalars

  lemma {:induction false} BlockLinesExtend(rows: Rows, parent: nat, start: Option<nat>)
    ensures var lines := BlockLines(rows, parent, start);
      BlockLines(rows + [""], parent, start) == if |lines| == |rows| then lines + [""] else lines
  {
    hide BlockLines, IsBlank, LeadingSpaces;
    EmptyRow();
    BlockLinesStep(rows + [""], parent, start);
    BlockLinesStep(rows, parent, start);
    if rows == [] {
      assert (rows + [""])[1..] == [];
      BlockLinesStep([], parent, start);
    } else {
      assert (rows + [""])[1..] == rows[1..] + [""];
      BlockLinesExtend(rows[1..], parent, start);
      var lead := LeadingSpaces(rows[0]);
      BlockLinesExtend(rows[1..], parent, Some(if start.None? then lead else start.value));
      BlockLinesGroup(BlockLines(rows, parent, start), rows);
    }
  }

  lemma BlockLinesGroup(lines: seq<string>, rows: Rows)
    ensures lines != [] ==> [lines[0]] + (lines[1..] + [""]) == lines + [""]
  {
  }

  /** A line of a block that is blank was a blank row. */
  lemma {:induction false} BlankLines(rows: Rows, parent: nat, start: Option<nat>)
    ensures var lines := BlockLines(rows, parent, start);
      forall k :: 0 <= k < |lines| && IsBlank(lines[k]) ==> IsBlank(rows[k])
  {
    hide BlockLines, IsBlank, LeadingSpaces;
    BlockLinesStep(rows, parent, start);
    if rows == [] {
    } else {
      BlankLines(rows[1..], parent, start);
      var lead := LeadingSpaces(rows[0]);
      var content := if start.None? then lead else start.value;
      BlankLines(rows[1..], parent, Some(content));
      if content <= lead {
        NotBlankAfter(rows[0], content);
      }
    }
  }

  lemma NotBlankAfter(row: string, k: nat)
    requires k <= LeadingSpaces(row)
    ensures IsBlank(row[k..]) ==> IsBlank(row)
  {
    hide IsSpace;
    if IsBlank(row[k..]) {
      BlankIsSpace(row[k..]);
      SpaceIsSpace();
      forall n | 0 <= n < |row| ensures IsSpace(row[n]) {
        if n >= k {
          assert row[n] == row[k..][n - k];
        }
      }
      SpaceIsBlank(row);
    }
  }

  lemma {:induction false} BlankAfterKept(lines: seq<string>)
    ensures forall k :: KeptLines(lines) <= k < |lines| ==> IsBlank(lines[k])
  {
    hide IsBlank;
    KeptLinesStep(lines);
    if lines == [] {
    } else if IsBlank(lines[|lines| - 1]) {
      BlankAfterKept(lines[..|lines| - 1]);
    }
  }

  lemma KeptExtends(lines: seq<string>)
    ensures KeptLines(lines + [""]) == KeptLines(lines)
  {
    EmptyRow();
    KeptLinesStep(lines + [""]);
    assert (lines + [""])[..|lines|] == lines;
  }

  /** Only a kept block counts its trailing lines. */
  lemma ChompedExtends(body: string, isEmpty: bool, n: nat, chomp: string)
    ensures Chomped(body, isEmpty, n + 1, chomp) == Chomped(body, isEmpty, n, chomp) <==> chomp != "+"
  {
    assert |Newlines(n + 1)| == |Newlines(n)| + 1;
    assert |body + "\n" + Newlines(n + 1)| == |body + "\n" + Newlines(n)| + 1;
  }

  lemma SliceExtends(s: seq<string>, k: nat)
    requires k <= |s|
    ensures (s + [""])[..k] == s[..k] && (s + [""])[k..] == s[k..] + [""]
  {
  }

  /** A block that takes every row leaves only blank ones. */
  lemma NothingAfterBlock(rows: Rows, parent: nat, start: Option<nat>)
    requires |BlockLines(rows, parent, start)| == |rows|
    ensures Skip(rows[KeptLines(BlockLines(rows, parent, start))..]) == Ok([])
  {
    hide BlockLines, KeptLines, IsBlank;
    var lines := BlockLines(rows, parent, start);
    BlankLines(rows, parent, start);
    BlankAfterKept(lines);
    var rest := rows[KeptLines(lines)..];
    forall row | row in rest ensures IsBlank(row) {
      var k :| 0 <= k < |rest| && rest[k] == row;
      assert rows[KeptLines(lines) + k] == row;
    }
    BlanksEnd(rest);
  }

  lemma BlockExtends(rows: Rows, headerText: string, parent: nat)
    ensures Extends(BlockScalar(rows + [""], headerText, parent), BlockScalar(rows, headerText, parent),
                    KeepsBlock(rows, headerText, parent))
  {
    hide ParseHeader, BlockLines, KeptLines, Body, Chomped, Trim, StripComment, Skip;
    var found := ParseHeader(Trim(StripComment(headerText)));
    if found.Some? {
      var start := StartOf(found.value, parent);
      var lines := BlockLines(rows, parent, start);
      var kept := KeptLines(lines);
      BlockLinesExtend(rows, parent, start);
      KeptExtends(lines);
      SliceExtends(lines, kept);
      SliceExtends(rows, kept);
      ChompedExtends(Body(lines[..kept], found.value.folded), kept == 0, |lines| - kept, found.value.chomp);
      if |lines| == |rows| {
        NothingAfterBlock(rows, parent, start);
        NothingAfterBlock(rows + [""], parent, start);
      }
    }
  }

  // --------------------------------------------------------------- flow scalars

  lemma {:induction false} ContinuationExtends(rows: Rows, parent: nat, isPlain: bool, pending: nat)
    ensures Continuation(rows + [""], parent, isPlain, pending) == Continuation(rows, parent, isPlain, pending)
  {
    hide Continuation, IsBlank, LeadingSpaces, Trim, StripComment;
    EmptyRow();
    ContinuationStep(rows + [""], parent, isPlain, pending);
    ContinuationStep(rows, parent, isPlain, pending);
    if rows == [] {
      assert (rows + [""])[1..] == [];
      ContinuationStep([], parent, isPlain, pending + 1);
    } else {
      assert (rows + [""])[1..] == rows[1..] + [""];
      ContinuationExtends(rows[1..], parent, isPlain, pending + 1);
      ContinuationExtends(rows[1..], parent, isPlain, 0);
    }
  }

  lemma FlowExtends(rows: Rows, text: string, parent: nat, inMap: bool)
    requires text != "" && text[0] != '|' && text[0] != '>'
    ensures IsSame(Value(rows + [""], text, parent, inMap), Value(rows, text, parent, inMap))
  {
    hide Continuation, InlineScalar;
    ContinuationExtends(rows, parent, !IsQuote(text[0]), 0);
    var parts := Continuation(rows, parent, !IsQuote(text[0]), 0);
    assert (rows + [""])[|parts|..] == rows[|parts|..] + [""];
  }

  // ----------------------------------------------------------------- structures

  lemma MapOfBlanks(rest: Rows, indent: nat, out: seq<Entry>)
    requires Skip(rest) == Ok([])
    ensures MapFrom(rest, indent, out) == Ok(Parsed(Map(out), []))
  {
    hide Skip;
  }

  lemma SequenceOfBlanks(rest: Rows, indent: nat, out: seq<Yaml>)
    requires Skip(rest) == Ok([])
    ensures SequenceFrom(rest, indent, out) == Ok(Parsed(Seq(out), []))
  {
    hide Skip;
  }

  lemma NothingSkipped()
    ensures Skip([]) == Ok([])
  {
  }

  lemma {:induction false} ValueExtends(rows: Rows, text: string, parent: nat, inMap: bool)
    ensures Extends(Value(rows + [""], text, parent, inMap), Value(rows, text, parent, inMap),
                    KeepsValue(rows, text, parent, inMap))
    decreases |rows|, HeadSize(rows), 3
  {
    hide HasContent, LineOf, IsItem, HeadSize, Skip, Node, SequenceFrom, KeepsNode, KeepsSequence, BlockScalar, KeepsBlock;
    if text == "" {
      SkipExtends(rows);
      NothingSkipped();
      if Skip(rows).Ok? && Skip(rows).value != [] {
        var after := Skip(rows).value;
        assert (after + [""])[0] == after[0];
        SkipIsIdempotent(rows);
        SkipIsIdempotent(rows + [""]);
        if LineOf(after[0]).indent > parent {
          NodeExtends(after, LineOf(after[0]).indent);
        } else if inMap && LineOf(after[0]).indent == parent && IsItem(LineOf(after[0]).text) {
          SequenceExtends(after, parent, []);
        }
      }
    } else if text[0] == '|' || text[0] == '>' {
      BlockExtends(rows, text, parent);
    } else {
      FlowExtends(rows, text, parent, inMap);
    }
  }

  lemma {:induction false} NodeExtends(rows: Rows, indent: nat)
    requires Skip(rows) == Ok(rows) && rows != [] && Skip(rows + [""]) == Ok(rows + [""])
    ensures Extends(Node(rows + [""], indent), Node(rows, indent), KeepsNode(rows, indent))
    decreases |rows|, HeadSize(rows), 2
  {
    hide HasContent, LineOf, IsItem, HeadSize, Skip, MapFrom, SequenceFrom, KeepsMap, KeepsSequence, Extends;
    assert (rows + [""])[0] == rows[0];
    if IsItem(LineOf(rows[0]).text) {
      SequenceExtends(rows, indent, []);
    } else {
      MapExtends(rows, indent, []);
    }
  }

  lemma {:induction false} EntryExtends(rows: Rows, indent: nat, out: seq<Entry>)
    requires rows != [] && HasContent(rows[0])
    ensures (rows + [""])[0] == rows[0]
    ensures Extends(MapEntry(rows + [""], indent, out), MapEntry(rows, indent, out), KeepsEntry(rows, indent, out))
    decreases |rows|, HeadSize(rows), 0
  {
    hide HasContent, LineOf, IsItem, HeadSize, Skip, Value, KeepsValue, MatchKey, WrittenValue, Uncommenting, OneLine, KeyText,
      HasKey;
    assert (rows + [""])[0] == rows[0] && (rows + [""])[1..] == rows[1..] + [""];
    var line := LineOf(rows[0]);
    if MatchKey(line.text).Some? {
      ValueExtends(rows[1..], Uncommenting(WrittenValue(line, MatchKey(line.text).value)), indent, true);
    }
  }

  lemma {:induction false} MapExtends(rows: Rows, indent: nat, out: seq<Entry>)
    ensures Extends(MapFrom(rows + [""], indent, out), MapFrom(rows, indent, out), KeepsMap(rows, indent, out))
    decreases |rows|, HeadSize(rows), 1
  {
    hide HasContent, LineOf, IsItem, HeadSize, Skip, MapFrom, MapEntry, KeepsEntry;
    SkipExtends(rows);
    NothingSkipped();
    MapStep(rows, indent, out);
    MapStep(rows + [""], indent, out);
    if Skip(rows).Ok? && Skip(rows).value != [] {
      var after := Skip(rows).value;
      assert (after + [""])[0] == after[0];
      if LineOf(after[0]).indent == indent && !IsItem(LineOf(after[0]).text) {
        EntryExtends(after, indent, out);
        var more, plain := MapEntry(after + [""], indent, out), MapEntry(after, indent, out);
        if KeepsEntry(after, indent, out) {
          MapOfBlanks(more.value.rest, indent, out + [more.value.value]);
          MapOfBlanks(plain.value.rest, indent, out + [plain.value.value]);
          assert (out + [more.value.value])[|out|] != (out + [plain.value.value])[|out|];
        } else if plain.Ok? {
          var entry := plain.value;
          if more.value.rest == entry.rest + [""] {
            MapExtends(entry.rest, indent, out + [entry.value]);
          } else {
            MapOfBlanks([], indent, out + [entry.value]);
          }
        }
      }
    }
  }

  lemma {:induction false} ItemExtends(rows: Rows, indent: nat)
    requires rows != [] && HasContent(rows[0]) && IsItem(LineOf(rows[0]).text)
    ensures (rows + [""])[0] == rows[0]
    ensures Extends(Item(rows + [""], indent), Item(rows, indent), KeepsItem(rows, indent))
    decreases |rows|, HeadSize(rows), 0
  {
    hide HasContent, LineOf, IsItem, HeadSize, Skip, Value, MapFrom, KeepsValue, KeepsMap, OpensMap, ItemRest, ItemValue,
      WithoutDash, ChildIndent, Uncommenting, Item, Extends;
    assert (rows + [""])[0] == rows[0] && (rows + [""])[1..] == rows[1..] + [""];
    ItemStep(rows, indent);
    ItemStep(rows + [""], indent);
    var line := LineOf(rows[0]);
    var rest := ItemRest(line.text);
    if rest == "" {
      ValueExtends(rows[1..], "", indent, false);
    } else if IsItem(rest) {
      SameError(Item(rows, indent));
    } else if OpensMap(rest) {
      RewriteShrinks(rows);
      assert [WithoutDash(line)] + (rows[1..] + [""]) == [WithoutDash(line)] + rows[1..] + [""];
      MapExtends([WithoutDash(line)] + rows[1..], ChildIndent(line), []);
    } else {
      ValueExtends(rows[1..], Uncommenting(ItemValue(line)), indent, false);
    }
  }

  lemma SameError(r: Outcome<Yaml>)
    requires r.Err?
    ensures Extends(r, r, false)
  {
  }

  lemma {:induction false} SequenceExtends(rows: Rows, indent: nat, out: seq<Yaml>)
    ensures Extends(SequenceFrom(rows + [""], indent, out), SequenceFrom(rows, indent, out), KeepsSequence(rows, indent, out))
    decreases |rows|, HeadSize(rows), 1
  {
    hide HasContent, LineOf, IsItem, HeadSize, Skip, SequenceFrom, Item, KeepsItem;
    SkipExtends(rows);
    NothingSkipped();
    SequenceStep(rows, indent, out);
    SequenceStep(rows + [""], indent, out);
    if Skip(rows).Ok? && Skip(rows).value != [] {
      var after := Skip(rows).value;
      assert (after + [""])[0] == after[0];
      if LineOf(after[0]).indent == indent && IsItem(LineOf(after[0]).text) {
        ItemExtends(after, indent);
        var more, plain := Item(after + [""], indent), Item(after, indent);
        if KeepsItem(after, indent) {
          SequenceOfBlanks(more.value.rest, indent, out + [more.value.value]);
          SequenceOfBlanks(plain.value.rest, indent, out + [plain.value.value]);
          assert (out + [more.value.value])[|out|] != (out + [plain.value.value])[|out|];
        } else if plain.Ok? {
          var item := plain.value;
          if more.value.rest == item.rest + [""] {
            SequenceExtends(item.rest, indent, out + [item.value]);
          } else {
            SequenceOfBlanks([], indent, out + [item.value]);
          }
        }
      }
    }
  }

  // ------------------------------------------------------- documents and texts

  /** One empty row more changes a document exactly when its last value is a kept
      block that runs to the end; it never makes or mends an error. */
  lemma DocumentExtends(rows: Rows)
    ensures ParseDocument(rows + [""]) == ParseDocument(rows) <==> !EndsInKeep(rows)
    ensures ParseDocument(rows + [""]).Ok? <==> ParseDocument(rows).Ok?
    ensures EndsInKeep(rows) ==> ParseDocument(rows).Ok?
  {
    hide HasContent, LineOf, Skip, Node, KeepsNode;
    SkipExtends(rows);
    NothingSkipped();
    if Skip(rows).Ok? && Skip(rows).value != [] {
      var first := Skip(rows).value;
      assert (first + [""])[0] == first[0];
      SkipIsIdempotent(rows);
      SkipIsIdempotent(rows + [""]);
      var indent := LineOf(first[0]).indent;
      NodeExtends(first, indent);
      if !KeepsNode(first, indent) && Node(first, indent).Ok? {
        SkipExtends(Node(first, indent).value.rest);
      }
    }
  }

  lemma {:induction false} DocumentsExtend(rows: Rows, current: Rows)
    ensures Documents(rows, current).Err? ==> Documents(rows + [""], current) == Documents(rows, current)
    ensures Documents(rows, current).Ok? ==>
      var ds := Documents(rows, current).value;
      Documents(rows + [""], current) == Ok(ds[..|ds| - 1] + [ds[|ds| - 1] + [""]])
    decreases |rows|
  {
    hide IsSeparator, IsForbiddenMarker, WithoutReturn;
    EmptyIsPlain();
    if rows == [] {
      assert rows + [""] == [""] && [""][1..] == [];
      assert [current][..0] + [current + [""]] == [current + [""]];
    } else {
      assert (rows + [""])[0] == rows[0] && (rows + [""])[1..] == rows[1..] + [""];
      if IsSeparator(rows[0]) {
        DocumentsExtend(rows[1..], []);
        if Documents(rows[1..], []).Ok? {
          LastOfMore(current, Documents(rows[1..], []).value);
        }
      } else if !IsForbiddenMarker(rows[0]) {
        DocumentsExtend(rows[1..], current + [WithoutReturn(rows[0])]);
      }
    }
  }

  lemma LastOfMore(current: Rows, ds: seq<Rows>)
    requires ds != []
    ensures var all := [current] + ds;
      all[..|all| - 1] + [all[|all| - 1] + [""]] == [current] + (ds[..|ds| - 1] + [ds[|ds| - 1] + [""]])
  {
  }

  lemma EmptyIsPlain()
    ensures !IsSeparator("") && !IsForbiddenMarker("") && WithoutReturn("") == ""
  {
  }

  lemma {:induction false} LastExtends(before: seq<Rows>, last: Rows)
    ensures var more, plain := ParseDocuments(before + [last + [""]]), ParseDocuments(before + [last]);
      (more == plain <==> !(plain.Ok? && EndsInKeep(last))) && (more.Ok? <==> plain.Ok?)
  {
    hide ParseDocument, EndsInKeep;
    if before == [] {
      DocumentExtends(last);
      OneDocumentParsed(last);
      OneDocumentParsed(last + [""]);
      assert before + [last] == [last] && before + [last + [""]] == [last + [""]];
      if EndsInKeep(last) {
        KeptDocument(last);
      }
    } else {
      LastExtends(before[1..], last);
      var a, b := before + [last], before + [last + [""]];
      assert a[0] == before[0] && a[1..] == before[1..] + [last];
      assert b[0] == before[0] && b[1..] == before[1..] + [last + [""]];
      var d := ParseDocument(before[0]);
      if d.Ok? && ParseDocuments(a[1..]).Ok? {
        var own := if d.value.Some? then [d.value.value] else [];
        SamePrefix(own, ParseDocuments(a[1..]).value, ParseDocuments(b[1..]).value);
      }
    }
  }

  lemma SamePrefix(own: seq<Yaml>, x: seq<Yaml>, y: seq<Yaml>)
    ensures own + x == own + y <==> x == y
  {
    assert (own + x)[|own|..] == x && (own + y)[|own|..] == y;
  }

  /** A document that ends in a kept block has content, with the row and without. */
  lemma KeptDocument(rows: Rows)
    requires EndsInKeep(rows)
    ensures ParseDocument(rows).Ok? && ParseDocument(rows).value.Some?
    ensures ParseDocument(rows + [""]).Ok? && ParseDocument(rows + [""]).value.Some?
  {
    hide Skip, HasContent, LineOf, Node, KeepsNode;
    DocumentExtends(rows);
    SkipExtends(rows);
  }

  lemma OneDocumentParsed(rows: Rows)
    ensures ParseDocument(rows).Err? ==> ParseDocuments([rows]).Err?
    ensures ParseDocument(rows).Err? ==> ParseDocuments([rows]).error == ParseDocument(rows).error
    ensures ParseDocument(rows).Ok? ==>
      ParseDocuments([rows]) == Ok(if ParseDocument(rows).value.Some? then [ParseDocument(rows).value.value] else [])
  {
    hide ParseDocument;
    assert [rows][0] == rows && ParseDocuments([rows][1..]) == Ok([]);
    var r := ParseDocument(rows);
    if r.Ok? {
      var own: seq<Yaml> := if r.value.Some? then [r.value.value] else [];
      assert own + ParseDocuments([rows][1..]).value == own;
    }
  }

  /** The text's last document ends in a kept block, and nothing is refused. */
  predicate KeepsAtEnd(text: string) {
    ParseYamlStream(text).Ok? &&
    var ds := Documents(Split(text), []).value;
    EndsInKeep(ds[|ds| - 1])
  }

  /** A newline at the end of a text changes what is read exactly when a kept block
      ends the text. */
  lemma FinalNewline(text: string)
    ensures ParseYamlStream(text + "\n") == ParseYamlStream(text) <==> !KeepsAtEnd(text)
    ensures ParseYamlStream(text + "\n").Ok? <==> ParseYamlStream(text).Ok?
  {
    hide Split, Documents, ParseDocuments, EndsInKeep;
    assert text + "\n" == text + "\n" + "";
    SplitJoin(text, "");
    EmptyText();
    DocumentsExtend(Split(text), []);
    if Documents(Split(text), []).Ok? {
      var ds := Documents(Split(text), []).value;
      LastExtends(ds[..|ds| - 1], ds[|ds| - 1]);
      assert ds[..|ds| - 1] + [ds[|ds| - 1]] == ds;
    }
  }

  lemma EmptyText()
    ensures Split("") == [""]
  {
  }

  lemma SameSuffix(x: seq<Yaml>, y: seq<Yaml>, z: seq<Yaml>)
    ensures x + z == y + z <==> x == y
  {
    if x + z == y + z {
      assert |x| == |y|;
      assert x == (x + z)[..|x|] && y == (y + z)[..|y|];
    }
  }

  lemma SameMarkers(text: string)
    ensures HasBadMarker(text + "\n") <==> HasBadMarker(text)
  {
    hide Split, Documents;
    assert text + "\n" == text + "\n" + "";
    SplitJoin(text, "");
    EmptyText();
    DocumentsExtend(Split(text), []);
  }

  /** Joining texts that end their lines: a `---` line between two of them gives
      the documents of the first and then of the second exactly when no kept block
      ends the first; whether anything is refused, and with
      which error, never depends on the joining. */
  lemma TerminatedTextsJoin(a: string, b: string)
    requires a != "" && a[|a| - 1] == '\n'
    ensures var r := ParseYamlStream(a + "---\n" + b);
      var first := ParseYamlStream(a);
      var second := ParseYamlStream(b);
      if first.Ok? && second.Ok? then
        r.Ok? && (r.value == first.value + second.value <==> !KeepsAtEnd(a[..|a| - 1]))
      else r == if IsFirstRefused(a, b) then first else second
  {
    hide ParseYamlStream, HasBadMarker;
    var text := a[..|a| - 1];
    assert a == text + "\n";
    assert a + "---\n" + b == text + "\n---\n" + b;
    StreamIsHomomorphism(text, b);
    FinalNewline(text);
    SameMarkers(text);
    if ParseYamlStream(a).Ok? && ParseYamlStream(b).Ok? {
      SameSuffix(ParseYamlStream(text).value, ParseYamlStream(a).value, ParseYamlStream(b).value);
    }
  }
}
