/**
 Writing a job among other jobs, its steps of values on one line or on many, and
 reading it back.
 */
module WorkflowRoundTrip {
  import opened Text
  import opened Workflow

  // --------------------------------------------------------------- the printer

  predicate IsName(key: string) {
    key != "" && IsNameStart(key[0]) && forall c :: c in key ==> IsNameChar(c)
  }

  predicate IsOneLine(v: string) { !HasTerminator(v) }

  predicate IsPlainValue(v: string) {
    v != "" && !IsSpace(v[0]) && !IsSpace(v[|v| - 1]) && !IsBlockValue(v) && Unquote(v) == v
  }

  /** A value as it is where that reads back, in single quotes where not. */
  function ValueText(v: string): string {
    if IsPlainValue(v) then v else "'" + (v + "'")
  }

  /** What stands on the line of a key: a value, a block's mark, or nothing. */
  datatype Head = Inline(value: string) | Mark(mark: string) | Bare

  /** A key as it is written: its line, the rows its value goes on with or that are
      nested below it, and comments or blank lines before the next key. */
  datatype Field = Field(key: string, head: Head, rows: Lines, notes: Lines)

  function HeadValue(head: Head): string {
    match head
    case Inline(v) => ValueText(v)
    case Mark(mark) => mark
    case Bare => ""
  }

  function FieldText(f: Field): string {
    if f.head.Bare? then f.key + ":" else f.key + (": " + HeadValue(f.head))
  }

  function FieldLines(f: Field, indent: nat): Lines {
    [Spaces(indent) + FieldText(f)] + (f.rows + f.notes)
  }

  function AllFieldLines(fields: seq<Field>, indent: nat): Lines {
    if fields == [] then [] else FieldLines(fields[0], indent) + AllFieldLines(fields[1..], indent)
  }

  predicate IsHead(head: Head) {
    match head
    case Inline(v) => IsOneLine(v)
    case Mark(mark) => IsBlockValue(mark) && IsOneLine(mark) && !IsSpace(mark[|mark| - 1])
    case Bare => true
  }

  /** A field whose key stands at `indent`, nothing of it at or left of `floor`. */
  predicate IsField(f: Field, indent: nat, floor: nat) {
    IsName(f.key) && IsHead(f.head)
    && (forall k :: 0 <= k < |f.rows| ==> IsDeeper(f.rows[k], indent))
    && (forall k :: 0 <= k < |f.notes| ==> !IsContent(f.notes[k]) && IsDeeper(f.notes[k], floor))
    && (f.notes != [] ==> !IsDeeper(f.notes[0], indent))
  }

  predicate AreFields(fields: seq<Field>, indent: nat, floor: nat) {
    forall k :: 0 <= k < |fields| ==> IsField(fields[k], indent, floor)
  }

  /** A written step: its keys, in any order, others among them. */
  type Written = seq<Field>

  predicate AreWritten(steps: seq<Written>, indent: nat, floor: nat) {
    forall k :: 0 <= k < |steps| ==> steps[k] != [] && AreFields(steps[k], indent + 2, floor)
  }

  function StepLines(fields: Written, indent: nat): Lines
    requires fields != []
  {
    [Spaces(indent) + ("- " + FieldText(fields[0]))] + (fields[0].rows + fields[0].notes)
    + AllFieldLines(fields[1..], indent + 2)
  }

  function AllStepLines(steps: seq<Written>, indent: nat): Lines
    requires forall k :: 0 <= k < |steps| ==> steps[k] != []
  {
    if steps == [] then [] else StepLines(steps[0], indent) + AllStepLines(steps[1..], indent)
  }

  /** A job's own keys, then its steps. */
  function JobLines(keys: seq<Field>, steps: seq<Written>, jobIndent: nat, indent: nat): Lines
    requires forall k :: 0 <= k < |steps| ==> steps[k] != []
  {
    AllFieldLines(keys, jobIndent) + ([Spaces(jobIndent) + "steps:"] + AllStepLines(steps, indent))
  }

  // ---------------------------------------------------------- what it stands for

  /** The texts of the rows that are not blank. */
  function Texts(rows: Lines): seq<string> {
    if rows == [] then []
    else (if IsBlank(rows[0]) then [] else [Trim(rows[0])]) + Texts(rows[1..])
  }

  /** The pieces a field's value is joined from. */
  function Pieces(f: Field): seq<string> {
    match f.head
    case Inline(v) => [v] + Texts(f.rows)
    case Mark(_) => Texts(f.rows)
    case Bare => [""] + Texts(f.rows)
  }

  /** A value that takes more than the line of its key. */
  predicate IsLong(f: Field) { f.head.Mark? || Texts(f.rows) != [] }

  function LastOf(fields: Written, key: string): Option<Field> {
    if fields == [] then None
    else if fields[|fields| - 1].key == key then Some(fields[|fields| - 1])
    else LastOf(fields[..|fields| - 1], key)
  }

  function ValueOf(fields: Written, key: string, separator: string): Option<string> {
    match LastOf(fields, key)
    case None => None
    case Some(f) => Some(JoinWith(Pieces(f), separator))
  }

  /** The step a written one is: name, condition and action with their pieces joined
      by spaces, the commands line by line. */
  function StepOf(fields: Written, index: nat): Step {
    var run := LastOf(fields, "run");
    Step(index, ValueOf(fields, "name", " "), ValueOf(fields, "if", " "), ValueOf(fields, "run", "\n"),
         run.Some? && IsLong(run.value), ValueOf(fields, "uses", " "))
  }

  function StepsOf(steps: seq<Written>): (r: seq<Step>)
    ensures |r| == |steps|
  {
    seq(|steps|, k requires 0 <= k < |steps| => StepOf(steps[k], k + 1))
  }

  /** A job key's value: what stands on its line. */
  function KeyValue(head: Head): string {
    match head
    case Inline(v) => v
    case Mark(mark) => mark
    case Bare => ""
  }

  function AddKeys(keys: map<string, string>, fields: seq<Field>): map<string, string>
    decreases fields
  {
    if fields == [] then keys else AddKeys(keys[fields[0].key := KeyValue(fields[0].head)], fields[1..])
  }

  // ------------------------------------------------------------------ one line

  lemma LineReads(n: nat, text: string)
    requires text != "" && !IsSpace(text[0]) && !IsSpace(text[|text| - 1])
    ensures var line := Spaces(n) + text;
      TrimStart(line) == text && Trim(line) == text && Indent(line) == n && !IsBlank(line)
      && (IsContent(line) <==> text[0] != '#')
  {
    hide Trim;
    TrimSpaces(n, text);
    TrimStartSpaces(n, text);
  }

  lemma {:induction false} NameRuns(key: string, rest: string)
    requires (forall c :: c in key ==> IsNameChar(c)) && (rest == "" || !IsNameChar(rest[0]))
    ensures NameRun(key + rest) == |key|
  {
    if key != "" {
      assert (key + rest)[0] in key;
      assert (key + rest)[1..] == key[1..] + rest;
      NameRuns(key[1..], rest);
    } else {
      assert key + rest == rest;
    }
  }

  lemma QuotedReads(v: string)
    requires IsOneLine(v)
    ensures var t := "'" + (v + "'"); !HasTerminator(t) && Trim(t) == t && Unquote(t) == v
  {
    hide Trim;
    var t := "'" + (v + "'");
    assert t[1..|t| - 1] == v;
    forall k | 0 <= k < |t| ensures !IsLineTerminator(t[k]) {
      if 0 < k < |t| - 1 { assert t[k] == v[k - 1]; }
    }
    TrimSpaces(0, t);
    assert Spaces(0) + t == t;
  }

  lemma ValueReads(v: string)
    requires IsOneLine(v)
    ensures var t := ValueText(v);
      t != "" && !IsSpace(t[0]) && !IsSpace(t[|t| - 1]) && !HasTerminator(t) && !IsBlockValue(t)
      && Trim(t) == t && Unquote(t) == v
  {
    hide Trim, Unquote, HasTerminator, IsPlainValue;
    if IsPlainValue(v) {
      PlainReads(v);
    } else {
      QuotedReads(v);
      assert ValueText(v)[0] == '\'';
    }
  }

  lemma PlainReads(v: string)
    requires IsPlainValue(v)
    ensures v != "" && !IsSpace(v[0]) && !IsSpace(v[|v| - 1]) && !IsBlockValue(v) && Trim(v) == v && Unquote(v) == v
  {
    hide Trim, Unquote;
    TrimSpaces(0, v);
    assert Spaces(0) + v == v;
  }

  lemma KeyMatches(key: string, t: string)
    requires IsName(key) && t != "" && !IsSpace(t[0]) && !HasTerminator(t)
    ensures MatchKey(key + (": " + t)) == Some(KeyLine(key, t))
  {
    var line := key + (": " + t);
    assert line[0] == key[0];
    assert line[1..] == key[1..] + (": " + t);
    NameRuns(key[1..], ": " + t);
    assert line[|key|] == ':' && line[|key| + 1..] == " " + t && line[..|key|] == key;
    assert Spaces(1) + t == " " + t;
    TrimStartSpaces(1, t);
  }

  lemma TextEnds(key: string, t: string)
    requires IsName(key) && t != "" && !IsSpace(t[|t| - 1])
    ensures var text := key + (": " + t);
      text != "" && !IsSpace(text[0]) && text[0] != '#' && text[0] != '-' && !IsSpace(text[|text| - 1])
  {
  }

  lemma MarkReads(mark: string)
    requires IsBlockValue(mark) && IsOneLine(mark) && !IsSpace(mark[|mark| - 1])
    ensures !IsSpace(mark[0]) && Trim(mark) == mark && Unquote(mark) == mark
  {
    hide HasTerminator;
    MarkIsVisible(mark[0]);
    TrimSpaces(0, mark);
    assert Spaces(0) + mark == mark;
  }

  lemma MarkIsVisible(c: char)
    requires c == '|' || c == '>'
    ensures !IsSpace(c) && !IsQuote(c)
  {
  }

  lemma BareKeyMatches(key: string)
    requires IsName(key)
    ensures MatchKey(key + ":") == Some(KeyLine(key, ""))
  {
    var line := key + ":";
    assert line[0] == key[0] && line[1..] == key[1..] + ":";
    NameRuns(key[1..], ":");
    assert line[|key|] == ':' && line[|key| + 1..] == "" && line[..|key|] == key;
  }

  /** A field's text is that of a key with its value, and is no comment. */
  lemma TextReads(f: Field)
    requires IsName(f.key) && IsHead(f.head)
    ensures var t := FieldText(f);
      t != "" && !IsSpace(t[0]) && t[0] != '#' && t[0] != '-' && !IsSpace(t[|t| - 1])
      && MatchKey(t) == Some(KeyLine(f.key, HeadValue(f.head)))
  {
    hide MatchKey, ValueText, HasTerminator, Unquote, Trim, IsBlockValue;
    match f.head
    case Inline(v) =>
      ValueReads(v);
      TextEnds(f.key, ValueText(v));
      KeyMatches(f.key, ValueText(v));
    case Mark(mark) =>
      MarkReads(mark);
      MarkStarts(mark);
      TextEnds(f.key, mark);
      KeyMatches(f.key, mark);
    case Bare =>
      BareKeyMatches(f.key);
      NameStarts(f.key);
  }

  lemma MarkStarts(mark: string)
    requires IsBlockValue(mark)
    ensures mark != "" && (mark[0] == '|' || mark[0] == '>')
  {
  }

  lemma NameStarts(key: string)
    requires IsName(key)
    ensures !IsSpace(key[0]) && key[0] != '#' && key[0] != '-' && !IsSpace(':')
  {
  }

  /** A field's line is read as its key and its value. */
  lemma FieldReads(f: Field, n: nat)
    requires IsName(f.key) && IsHead(f.head)
    ensures var line := Spaces(n) + FieldText(f);
      IsContent(line) && Indent(line) == n && !IsBlank(line)
      && MatchKey(Trim(line)) == Some(KeyLine(f.key, HeadValue(f.head)))
  {
    hide IsName, MatchKey, Trim, IsContent, Indent, FieldText, IsHead;
    TextReads(f);
    LineReads(n, FieldText(f));
  }

  // ------------------------------------------------------------------- one step

  /** What one field makes of a step. */
  function SetField(s: Step, f: Field): Step {
    if f.key == "run" then s.(multiline := IsLong(f), run := Some(JoinWith(Pieces(f), "\n")))
    else if f.key == "name" then s.(name := Some(JoinWith(Pieces(f), " ")))
    else if f.key == "if" then s.(cond := Some(JoinWith(Pieces(f), " ")))
    else if f.key == "uses" then s.(uses := Some(JoinWith(Pieces(f), " ")))
    else s
  }

  function SetFields(s: Step, fields: Written): Step
    decreases |fields|
  {
    if fields == [] then s
    else SetField(SetFields(s, fields[..|fields| - 1]), fields[|fields| - 1])
  }

  lemma {:induction false} FieldsMake(fields: Written, index: nat)
    ensures SetFields(EmptyStep(index), fields) == StepOf(fields, index)
  {
    hide Pieces, JoinWith, IsLong;
    if fields == [] {
    } else {
      FieldsMake(fields[..|fields| - 1], index);
    }
  }

  lemma {:induction false} SetFirst(s: Step, fields: Written)
    requires fields != []
    ensures SetFields(s, fields) == SetFields(SetField(s, fields[0]), fields[1..])
    decreases |fields|
  {
    hide SetField;
    if |fields| == 1 {
      assert fields[..0] == [] && fields[1..] == [];
    } else {
      var before, last := fields[..|fields| - 1], fields[|fields| - 1];
      SetFirst(s, before);
      assert fields[1..][..|fields| - 2] == before[1..];
    }
  }

  /** The rows a value goes on with, up to a line that is not deeper. */
  lemma {:induction false} RowsContinue(rows: Lines, rest: Lines, n: nat)
    requires (forall k :: 0 <= k < |rows| ==> IsDeeper(rows[k], n)) && (rest == [] || !IsDeeper(rest[0], n))
    ensures Continued(rows + rest, n) == Texts(rows)
  {
    hide IsDeeper, IsBlank, Trim;
    if rows == [] {
      assert rows + rest == rest;
    } else {
      assert (rows + rest)[1..] == rows[1..] + rest;
      RowsContinue(rows[1..], rest, n);
    }
  }

  /** Rows deeper than the keys, comments and blank lines set nothing. */
  lemma {:induction false} RowsSetNothing(s: Step, rows: Lines, rest: Lines, n: nat)
    requires forall k :: 0 <= k < |rows| ==> IsDeeper(rows[k], n) || !IsContent(rows[k])
    ensures ReadStep(s, rows + rest, n) == ReadStep(s, rest, n)
    decreases rows
  {
    if rows == [] {
      assert rows + rest == rest;
    } else {
      assert (rows + rest)[0] == rows[0] && (rows + rest)[1..] == rows[1..] + rest;
      RowSetsNothing(s, rows + rest, n);
      RowsSetNothing(s, rows[1..], rest, n);
    }
  }

  lemma RowSetsNothing(s: Step, lines: Lines, n: nat)
    requires lines != [] && (IsDeeper(lines[0], n) || !IsContent(lines[0]))
    ensures StepLine(s, lines, n) == s
  {
    hide TrimStart, MatchKey, Trim, Continued, SetKey;
  }

  lemma FieldSets(s: Step, f: Field)
    requires IsStepKey(f.key) && IsHead(f.head)
    ensures SetKey(s, f.key, Trim(HeadValue(f.head)), Texts(f.rows)) == SetField(s, f)
  {
    hide ValueText, Unquote, Trim, IsBlockValue, JoinWith, Texts, HasTerminator;
    match f.head
    case Inline(v) =>
      ValueReads(v);
      assert [v] + [] == [v];
    case Mark(mark) => MarkReads(mark);
    case Bare => NothingReads();
  }

  lemma NothingReads()
    ensures Trim("") == "" && Unquote("") == "" && !IsBlockValue("")
  {
  }

  /** One field is read as what it sets, when a key, or nothing, comes next. */
  lemma FieldRead(s: Step, f: Field, rest: Lines, n: nat, floor: nat)
    requires IsField(f, n, floor) && (rest == [] || !IsDeeper(rest[0], n))
    ensures ReadStep(s, FieldLines(f, n) + rest, n) == ReadStep(SetField(s, f), rest, n)
  {
    hide IsDeeper, IsContent, Indent, MatchKey, Trim, Continued, HeadValue, SetKey, SetField, IsHead, IsName, FieldText, Texts;
    var line := Spaces(n) + FieldText(f);
    var after := f.rows + (f.notes + rest);
    var lines := FieldLines(f, n) + rest;
    assert lines[0] == line && lines[1..] == after;
    FieldReads(f, n);
    RowsContinue(f.rows, f.notes + rest, n);
    if IsStepKey(f.key) {
      FieldSets(s, f);
    } else {
      OtherKey(s, f);
    }
    RowsSetNothing(SetField(s, f), f.rows, f.notes + rest, n);
    RowsSetNothing(SetField(s, f), f.notes, rest, n);
  }

  lemma OtherKey(s: Step, f: Field)
    requires !IsStepKey(f.key)
    ensures SetField(s, f) == s
  {
  }

  lemma FieldLineFirst(fields: Written, n: nat, rest: Lines)
    requires fields != []
    ensures AllFieldLines(fields, n) + rest == FieldLines(fields[0], n) + (AllFieldLines(fields[1..], n) + rest)
    ensures AllFieldLines(fields, n) != [] && AllFieldLines(fields, n)[0] == Spaces(n) + FieldText(fields[0])
  {
    hide FieldText;
  }

  /** The lines of fields, or what follows them, do not go on with a value. */
  lemma FieldsStop(fields: Written, rest: Lines, n: nat, floor: nat)
    requires AreFields(fields, n, floor) && (rest == [] || !IsDeeper(rest[0], n))
    ensures var lines := AllFieldLines(fields, n) + rest; lines == [] || !IsDeeper(lines[0], n)
  {
    hide FieldLines, FieldText, IsBlank, Indent, IsContent, MatchKey, Trim, IsHead, IsName;
    if fields == [] {
      assert AllFieldLines(fields, n) + rest == rest;
    } else {
      FieldLineFirst(fields, n, rest);
      FieldReads(fields[0], n);
    }
  }

  lemma {:induction false} FieldsRead(s: Step, fields: Written, rest: Lines, n: nat, floor: nat)
    requires AreFields(fields, n, floor) && (rest == [] || !IsDeeper(rest[0], n))
    ensures ReadStep(s, AllFieldLines(fields, n) + rest, n) == ReadStep(SetFields(s, fields), rest, n)
    decreases |fields|
  {
    hide FieldLines, SetField, IsDeeper, IsField, ReadStep;
    if fields == [] {
      assert AllFieldLines(fields, n) + rest == rest;
    } else {
      var more := AllFieldLines(fields[1..], n) + rest;
      FieldLineFirst(fields, n, rest);
      FieldsStop(fields[1..], rest, n, floor);
      FieldRead(s, fields[0], more, n, floor);
      SetFirst(s, fields);
      hide SetFields;
      FieldsRead(SetField(s, fields[0]), fields[1..], rest, n, floor);
    }
  }

  // -------------------------------------------------------------- all the steps

  /** Lines that end a list of steps. */
  predicate EndsSteps(rest: Lines, jobIndent: nat) {
    rest == [] || (IsContent(rest[0]) && Indent(rest[0]) <= jobIndent)
  }

  lemma DashReads(f: Field, n: nat)
    requires IsName(f.key) && IsHead(f.head)
    ensures var line := Spaces(n) + ("- " + FieldText(f));
      IsContent(line) && Indent(line) == n && IsDashItem(line)
      && Spaces(n + 2) + TrimStart(line)[2..] == Spaces(n + 2) + FieldText(f)
  {
    hide FieldText, TrimStart, Trim, Indent, IsBlank, MatchKey, IsName, IsHead;
    TextReads(f);
    LineReads(n, "- " + FieldText(f));
    assert ("- " + FieldText(f))[2..] == FieldText(f);
  }

  lemma {:induction false} RowsStay(rows: Lines, more: Lines, indent: nat)
    requires forall k :: 0 <= k < |rows| ==> !EndsStep(rows[k], indent)
    ensures StepBody(rows + more, indent) == rows + StepBody(more, indent)
  {
    hide EndsStep;
    if rows == [] {
      assert rows + more == more && [] + StepBody(more, indent) == StepBody(more, indent);
    } else {
      assert (rows + more)[1..] == rows[1..] + more;
      RowsStay(rows[1..], more, indent);
      assert [rows[0]] + (rows[1..] + StepBody(more, indent)) == rows + StepBody(more, indent);
    }
  }

  lemma RowStays(line: string, indent: nat)
    requires !IsContent(line) || Indent(line) > indent
    ensures !EndsStep(line, indent)
  {
  }

  lemma DeeperStays(row: string, n: nat, indent: nat)
    requires IsDeeper(row, n) && n >= indent
    ensures !EndsStep(row, indent)
  {
  }

  /** No line of a field but its first can end the step. */
  lemma BelowStays(f: Field, n: nat, floor: nat, indent: nat)
    requires IsField(f, n, floor) && n >= indent
    ensures forall k :: 0 <= k < |f.rows + f.notes| ==> !EndsStep((f.rows + f.notes)[k], indent)
  {
    hide IsDeeper, IsContent, EndsStep, IsHead, IsName, Indent;
    forall k | 0 <= k < |f.rows + f.notes| ensures !EndsStep((f.rows + f.notes)[k], indent) {
      if k < |f.rows| {
        DeeperStays(f.rows[k], n, indent);
      } else {
        RowStays(f.notes[k - |f.rows|], indent);
      }
    }
  }

  lemma FieldStays(f: Field, floor: nat, indent: nat)
    requires IsField(f, indent + 2, floor)
    ensures var lines := FieldLines(f, indent + 2);
      forall k :: 0 <= k < |lines| ==> !EndsStep(lines[k], indent)
  {
    hide FieldText, EndsStep, IsContent, Indent, MatchKey, Trim, IsDeeper, IsHead, IsName;
    FieldReads(f, indent + 2);
    RowStays(Spaces(indent + 2) + FieldText(f), indent);
    BelowStays(f, indent + 2, floor, indent);
  }

  /** A step's lines end where the next one, or what follows the steps, starts. */
  lemma {:induction false} BodyEnds(fields: Written, rest: Lines, floor: nat, indent: nat)
    requires AreFields(fields, indent + 2, floor) && (rest == [] || EndsStep(rest[0], indent))
    ensures StepBody(AllFieldLines(fields, indent + 2) + rest, indent) == AllFieldLines(fields, indent + 2)
  {
    hide FieldLines, EndsStep, IsField;
    if fields == [] {
      assert AllFieldLines(fields, indent + 2) + rest == rest;
    } else {
      var more := AllFieldLines(fields[1..], indent + 2);
      FieldLineFirst(fields, indent + 2, rest);
      FieldStays(fields[0], floor, indent);
      hide StepBody;
      RowsStay(FieldLines(fields[0], indent + 2), more + rest, indent);
      BodyEnds(fields[1..], rest, floor, indent);
    }
  }

  lemma StepLinesAre(fields: Written, indent: nat, rest: Lines)
    requires fields != []
    ensures var lines := StepLines(fields, indent) + rest;
      lines[0] == Spaces(indent) + ("- " + FieldText(fields[0]))
      && lines[1..] == (fields[0].rows + fields[0].notes) + (AllFieldLines(fields[1..], indent + 2) + rest)
      && |StepLines(fields, indent)| == 1 + |fields[0].rows + fields[0].notes| + |AllFieldLines(fields[1..], indent + 2)|
  {
    hide FieldText, AllFieldLines;
  }

  /** What comes after a step: the dash of the next one, or the end of the steps. */
  lemma NextEnds(steps: seq<Written>, rest: Lines, jobIndent: nat, indent: nat, floor: nat)
    requires jobIndent < indent && EndsSteps(rest, jobIndent) && AreWritten(steps, indent, floor)
    ensures var next := AllStepLines(steps, indent) + rest; next == [] || EndsStep(next[0], indent)
  {
    hide FieldText, AllFieldLines, IsContent, Indent, IsHead, IsName, IsDeeper;
    if steps != [] {
      assert IsField(steps[0][0], indent + 2, floor);
      DashReads(steps[0][0], indent);
      StepLinesAre(steps[0], indent, AllStepLines(steps[1..], indent) + rest);
      assert AllStepLines(steps, indent) + rest == StepLines(steps[0], indent) + (AllStepLines(steps[1..], indent) + rest);
    } else {
      assert AllStepLines(steps, indent) + rest == rest;
    }
  }

  /** What the lines of a step are read as, its dash replaced by blanks. */
  lemma StepIs(fields: Written, index: nat, floor: nat, indent: nat)
    requires fields != [] && AreFields(fields, indent + 2, floor)
    ensures ReadStep(EmptyStep(index),
                     [Spaces(indent + 2) + FieldText(fields[0])]
                     + ((fields[0].rows + fields[0].notes) + AllFieldLines(fields[1..], indent + 2)), indent + 2)
         == StepOf(fields, index)
  {
    hide FieldText, ReadStep, IsField, StepOf, SetFields;
    FieldsRead(EmptyStep(index), fields, [], indent + 2, floor);
    FieldsMake(fields, index);
    NothingLeft(StepOf(fields, index), indent + 2);
    assert AllFieldLines(fields, indent + 2) + []
        == [Spaces(indent + 2) + FieldText(fields[0])]
           + ((fields[0].rows + fields[0].notes) + AllFieldLines(fields[1..], indent + 2));
  }

  lemma NothingLeft(s: Step, n: nat)
    ensures ReadStep(s, [], n) == s
  {
  }

  /** One written step is taken whole, as the step it stands for. */
  lemma StepReads(fields: Written, rest: Lines, jobIndent: nat, indent: nat, floor: nat, own: Option<nat>, before: seq<Step>)
    requires fields != [] && AreFields(fields, indent + 2, floor) && jobIndent < indent
    requires (own.Some? ==> own.value == indent) && (rest == [] || EndsStep(rest[0], indent))
    ensures StepItems(StepLines(fields, indent) + rest, jobIndent, own, before)
         == StepItems(rest, jobIndent, Some(indent), before + [StepOf(fields, |before| + 1)])
  {
    hide FieldText, AllFieldLines, IsContent, Indent, IsDashItem, EndsStep, ReadStep, StepBody, TrimStart, StepOf, IsHead, IsName,
         IsDeeper;
    var dash := Spaces(indent) + ("- " + FieldText(fields[0]));
    var below := fields[0].rows + fields[0].notes;
    var lines, more := StepLines(fields, indent) + rest, AllFieldLines(fields[1..], indent + 2);
    StepLinesAre(fields, indent, rest);
    assert IsField(fields[0], indent + 2, floor);
    DashReads(fields[0], indent);
    BelowStays(fields[0], indent + 2, floor, indent);
    RowsStay(below, more + rest, indent);
    BodyEnds(fields[1..], rest, floor, indent);
    assert StepBody(lines[1..], indent) == below + more;
    StepIs(fields, |before| + 1, floor, indent);
    assert StepAt(lines, indent, |before| + 1) == StepOf(fields, |before| + 1);
    assert lines[1 + |below + more|..] == rest;
    Below(dash, jobIndent, indent);
  }

  lemma Below(line: string, jobIndent: nat, indent: nat)
    requires Indent(line) == indent && jobIndent < indent
    ensures InSteps(line, jobIndent)
  {
  }

  lemma StepLinesOpen(steps: seq<Written>, indent: nat, rest: Lines)
    requires steps != [] && forall k :: 0 <= k < |steps| ==> steps[k] != []
    ensures AllStepLines(steps, indent) + rest
         == StepLines(steps[0], indent) + (AllStepLines(steps[1..], indent) + rest)
  {
    hide StepLines;
  }

  /** The steps the written ones stand for, numbered from a place on. */
  function StepsFrom(steps: seq<Written>, from: nat): seq<Step> {
    if steps == [] then [] else [StepOf(steps[0], from + 1)] + StepsFrom(steps[1..], from + 1)
  }

  lemma {:induction false} StepsFromAre(steps: seq<Written>, from: nat)
    ensures |StepsFrom(steps, from)| == |steps|
    ensures forall k :: 0 <= k < |steps| ==> StepsFrom(steps, from)[k] == StepOf(steps[k], from + k + 1)
  {
    hide StepOf;
    if steps == [] {
    } else {
      StepsFromAre(steps[1..], from + 1);
    }
  }

  lemma {:induction false} StepsRead(steps: seq<Written>, rest: Lines, jobIndent: nat, indent: nat, floor: nat,
                                     own: Option<nat>, before: seq<Step>)
    requires AreWritten(steps, indent, floor) && jobIndent < indent && (own.Some? ==> own.value == indent)
    requires EndsSteps(rest, jobIndent)
    ensures StepItems(AllStepLines(steps, indent) + rest, jobIndent, own, before)
         == Items(before + StepsFrom(steps, |before|), rest)
    decreases |steps|
  {
    hide StepLines, AllStepLines, StepItems, AreWritten, AreFields, EndsStep, EndsSteps, StepOf, StepsFrom;
    StepsFromOpen(steps, |before|);
    if steps == [] {
      NoStepLines(indent, rest);
      StepsEnd(rest, jobIndent, own, before);
      assert before + [] == before;
    } else {
      WrittenRest(steps, indent, floor);
      var others, first := AllStepLines(steps[1..], indent) + rest, StepOf(steps[0], |before| + 1);
      StepLinesOpen(steps, indent, rest);
      NextEnds(steps[1..], rest, jobIndent, indent, floor);
      StepReads(steps[0], others, jobIndent, indent, floor, own, before);
      StepsRead(steps[1..], rest, jobIndent, indent, floor, Some(indent), before + [first]);
      var more := StepsFrom(steps[1..], |before| + 1);
      assert before + [first] + more == before + ([first] + more);
    }
  }

  lemma StepsFromOpen(steps: seq<Written>, from: nat)
    ensures StepsFrom(steps, from)
         == if steps == [] then [] else [StepOf(steps[0], from + 1)] + StepsFrom(steps[1..], from + 1)
  {
    hide StepOf;
  }

  lemma WrittenRest(steps: seq<Written>, indent: nat, floor: nat)
    requires steps != [] && AreWritten(steps, indent, floor)
    ensures steps[0] != [] && AreFields(steps[0], indent + 2, floor) && AreWritten(steps[1..], indent, floor)
    ensures (forall k :: 0 <= k < |steps| ==> steps[k] != []) && forall k :: 0 <= k < |steps[1..]| ==> steps[1..][k] != []
  {
    hide AreFields;
  }

  lemma NoStepLines(indent: nat, rest: Lines)
    ensures AllStepLines([], indent) + rest == rest
  {
  }

  lemma StepsEnd(rest: Lines, jobIndent: nat, own: Option<nat>, before: seq<Step>)
    requires EndsSteps(rest, jobIndent)
    ensures StepItems(rest, jobIndent, own, before) == Items(before, rest)
  {
    hide IsContent, Indent;
  }

  // ----------------------------------------------------------------- the job

  predicate AreKeys(fields: seq<Field>, indent: nat, floor: nat) {
    AreFields(fields, indent, floor) && forall k :: 0 <= k < |fields| ==> fields[k].key != "steps"
  }

  lemma StepsLine(n: nat)
    ensures var line := Spaces(n) + "steps:";
      IsContent(line) && Indent(line) == n && MatchKey(Trim(line)) == Some(KeyLine("steps", ""))
  {
    hide Trim, Indent, IsContent, MatchKey;
    LineReads(n, "steps:");
    BareKeyMatches("steps");
    assert "steps" + ":" == "steps:";
  }

  lemma {:induction false} RowsAreNoKeys(rows: Lines, rest: Lines, n: nat, done: Parsed)
    requires forall k :: 0 <= k < |rows| ==> IsDeeper(rows[k], n) || !IsContent(rows[k])
    ensures JobKeys(rows + rest, n, done) == JobKeys(rest, n, done)
  {
    hide MatchKey, Trim, StepItems, TrimStart;
    if rows == [] {
      assert rows + rest == rest;
    } else {
      assert (rows + rest)[0] == rows[0] && (rows + rest)[1..] == rows[1..] + rest;
      RowsAreNoKeys(rows[1..], rest, n, done);
    }
  }

  lemma KeyHeadReads(head: Head)
    requires IsHead(head)
    ensures Unquote(HeadValue(head)) == KeyValue(head)
  {
    hide Unquote, ValueText, HasTerminator, Trim;
    match head
    case Inline(v) => ValueReads(v);
    case Mark(mark) => MarkReads(mark);
    case Bare => NothingReads();
  }

  lemma KeyRead(f: Field, rest: Lines, n: nat, floor: nat, done: Parsed)
    requires IsField(f, n, floor) && f.key != "steps"
    ensures JobKeys(FieldLines(f, n) + rest, n, done)
         == JobKeys(rest, n, Parsed(done.keys[f.key := KeyValue(f.head)], done.steps))
  {
    hide FieldText, IsContent, Indent, MatchKey, Trim, Unquote, StepItems, IsName, IsHead, IsDeeper, HeadValue, KeyValue;
    var lines := FieldLines(f, n) + rest;
    assert lines[0] == Spaces(n) + FieldText(f) && lines[1..] == f.rows + (f.notes + rest);
    FieldReads(f, n);
    KeyHeadReads(f.head);
    var after := Parsed(done.keys[f.key := KeyValue(f.head)], done.steps);
    RowsAreNoKeys(f.rows, f.notes + rest, n, after);
    RowsAreNoKeys(f.notes, rest, n, after);
  }

  lemma {:induction false} KeysRead(fields: seq<Field>, rest: Lines, n: nat, floor: nat, done: Parsed)
    requires AreKeys(fields, n, floor)
    ensures JobKeys(AllFieldLines(fields, n) + rest, n, done)
         == JobKeys(rest, n, Parsed(AddKeys(done.keys, fields), done.steps))
    decreases fields
  {
    hide FieldLines, JobKeys, IsField, KeyValue;
    if fields == [] {
      assert AllFieldLines(fields, n) + rest == rest;
    } else {
      FieldLineFirst(fields, n, rest);
      KeyRead(fields[0], AllFieldLines(fields[1..], n) + rest, n, floor, done);
      KeysRead(fields[1..], rest, n, floor, Parsed(done.keys[fields[0].key := KeyValue(fields[0].head)], done.steps));
    }
  }

  /** A written job is read back: its keys, and the steps it stands for. */
  lemma JobReads(keys: seq<Field>, steps: seq<Written>, jobIndent: nat, indent: nat, floor: nat)
    requires AreKeys(keys, jobIndent, floor) && jobIndent < indent && AreWritten(steps, indent, floor)
    ensures ParseSteps(JobLines(keys, steps, jobIndent, indent))
         == Parsed(AddKeys(map[], keys)["steps" := ""], StepsOf(steps))
  {
    hide IsContent, Indent, MatchKey, Trim, AllStepLines, StepItems, AllFieldLines, AreFields, AddKeys, StepOf;
    var tail := [Spaces(jobIndent) + "steps:"] + AllStepLines(steps, indent);
    FirstLine(keys, tail, jobIndent, floor);
    StepsLine(jobIndent);
    assert tail[0] == Spaces(jobIndent) + "steps:" && tail[1..] == AllStepLines(steps, indent);
    KeysRead(keys, tail, jobIndent, floor, Parsed(map[], []));
    StepsRead(steps, [], jobIndent, indent, floor, None, []);
    StepsFromAre(steps, 0);
    assert AllStepLines(steps, indent) + [] == AllStepLines(steps, indent);
    assert [] + StepsFrom(steps, 0) == StepsOf(steps);
    NothingReads();
  }

  lemma FirstLine(keys: seq<Field>, tail: Lines, n: nat, floor: nat)
    requires AreFields(keys, n, floor) && tail != [] && tail[0] == Spaces(n) + "steps:"
    ensures FirstContent(AllFieldLines(keys, n) + tail).Some?
    ensures Indent(FirstContent(AllFieldLines(keys, n) + tail).value) == n
  {
    hide FieldText, IsContent, Indent, MatchKey, Trim, IsName, IsHead, IsDeeper;
    StepsLine(n);
    if keys == [] {
      assert AllFieldLines(keys, n) + tail == tail;
    } else {
      FieldReads(keys[0], n);
      FieldLineFirst(keys, n, tail);
    }
  }

  // -------------------------------------------------------------- among jobs

  /** The column the first job's name stands at. */
  function FirstColumn(lines: Lines): Option<nat> {
    match FirstContent(lines)
    case None => None
    case Some(line) => Some(Indent(line))
  }

  /** Lines of other jobs: none at the left margin, and none that names this one
      in the column of the jobs. */
  predicate AreOthers(lines: Lines, name: string, column: nat) {
    && (FirstColumn(lines).None? || FirstColumn(lines) == Some(column))
    && forall k :: 0 <= k < |lines| && IsContent(lines[k]) ==>
         Indent(lines[k]) > 0 && !(Indent(lines[k]) == column && Trim(lines[k]) == name + ":")
  }

  predicate NoJobsLine(lines: Lines) {
    forall k :: 0 <= k < |lines| ==> !IsWordLine(lines[k], "jobs:")
  }

  lemma {:induction false} JobsFound(header: Lines, rest: Lines, at: nat)
    requires NoJobsLine(header)
    ensures AfterJobs(header + (["jobs:"] + rest), at) == Some(Block(at + |header| + 1, rest))
  {
    hide IsWordLine;
    if header == [] {
      assert header + (["jobs:"] + rest) == ["jobs:"] + rest && (["jobs:"] + rest)[1..] == rest;
      JobsLine();
    } else {
      assert (header + (["jobs:"] + rest))[1..] == header[1..] + (["jobs:"] + rest);
      JobsFound(header[1..], rest, at + 1);
    }
  }

  lemma JobsLine()
    ensures IsWordLine("jobs:", "jobs:")
  {
    assert "jobs:"[5..] == "";
  }

  predicate Known(own: Option<nat>, lines: Lines, column: nat) {
    own == Some(column) || (own.None? && (FirstColumn(lines).None? || FirstColumn(lines) == Some(column)))
  }

  lemma {:induction false} OthersPassed(others: Lines, rest: Lines, at: nat, own: Option<nat>, name: string, column: nat)
    returns (known: Option<nat>)
    requires Known(own, others, column)
    requires forall k :: 0 <= k < |others| && IsContent(others[k]) ==>
      Indent(others[k]) > 0 && !(Indent(others[k]) == column && Trim(others[k]) == name + ":")
    ensures known.Some? ==> known.value == column
    ensures FindJob(others + rest, at, own, name) == FindJob(rest, at + |others|, known, name)
    decreases others
  {
    hide IsContent, Indent, Trim, JobBody;
    if others == [] {
      assert others + rest == rest;
      known := own;
    } else {
      assert (others + rest)[1..] == others[1..] + rest;
      var next := if IsContent(others[0]) && own.None? then Some(Indent(others[0])) else own;
      known := OthersPassed(others[1..], rest, at + 1, next, name, column);
    }
  }

  lemma {:induction false} BodyIs(body: Lines, rest: Lines, column: nat)
    requires forall k :: 0 <= k < |body| ==> IsDeeper(body[k], column)
    requires rest == [] || !IsDeeper(rest[0], column)
    ensures JobBody(body + rest, column) == body
  {
    hide IsDeeper;
    if body == [] {
      assert body + rest == rest;
    } else {
      assert (body + rest)[1..] == body[1..] + rest;
      BodyIs(body[1..], rest, column);
    }
  }

  /** A job's lines are found whole among those of other jobs. */
  lemma JobFound(header: Lines, others: Lines, name: string, body: Lines, rest: Lines, column: nat)
    requires NoJobsLine(header) && column > 0 && AreOthers(others, name, column)
    requires name != "" && !IsSpace(name[0]) && name[0] != '#'
    requires forall k :: 0 <= k < |body| ==> IsDeeper(body[k], column)
    requires rest == [] || !IsDeeper(rest[0], column)
    ensures JobBlock(header + (["jobs:"] + (others + ([Spaces(column) + (name + ":")] + (body + rest)))), name)
         == Some(Block(|header| + |others| + 2, body))
  {
    hide IsContent, Indent, Trim, IsDeeper, FindJob, JobBody, AfterJobs;
    var job := [Spaces(column) + (name + ":")] + (body + rest);
    JobsFound(header, others + job, 0);
    var known := OthersPassed(others, job, |header| + 1, None, name, column);
    JobLine(body, rest, |header| + 1 + |others|, known, name, column);
  }

  lemma JobLine(body: Lines, rest: Lines, at: nat, known: Option<nat>, name: string, column: nat)
    requires column > 0 && (known.Some? ==> known.value == column)
    requires name != "" && !IsSpace(name[0]) && name[0] != '#'
    requires forall k :: 0 <= k < |body| ==> IsDeeper(body[k], column)
    requires rest == [] || !IsDeeper(rest[0], column)
    ensures FindJob([Spaces(column) + (name + ":")] + (body + rest), at, known, name) == Some(Block(at + 1, body))
  {
    hide IsContent, Indent, Trim, IsDeeper, JobBody;
    LineReads(column, name + ":");
    BodyIs(body, rest, column);
    var job := [Spaces(column) + (name + ":")] + (body + rest);
    assert job[0] == Spaces(column) + (name + ":") && job[1..] == body + rest;
  }

  lemma FieldDeep(f: Field, n: nat, column: nat)
    requires n > column && IsField(f, n, column)
    ensures forall k :: 0 <= k < |FieldLines(f, n)| ==> IsDeeper(FieldLines(f, n)[k], column)
  {
    hide FieldText, IsContent, MatchKey, Trim, IsName, IsHead, TrimStart;
    FieldReads(f, n);
  }

  lemma {:induction false} FieldLinesDeep(fields: seq<Field>, n: nat, column: nat)
    requires n > column && AreFields(fields, n, column)
    ensures forall k :: 0 <= k < |AllFieldLines(fields, n)| ==> IsDeeper(AllFieldLines(fields, n)[k], column)
  {
    hide FieldLines, IsDeeper, IsField;
    if fields == [] {
    } else {
      FieldDeep(fields[0], n, column);
      FieldLinesDeep(fields[1..], n, column);
    }
  }

  lemma StepDeep(fields: Written, n: nat, column: nat)
    requires fields != [] && n > column && AreFields(fields, n + 2, column)
    ensures forall k :: 0 <= k < |StepLines(fields, n)| ==> IsDeeper(StepLines(fields, n)[k], column)
  {
    hide FieldText, IsContent, IsName, IsHead, AllFieldLines, Indent, IsBlank;
    assert IsField(fields[0], n + 2, column);
    DashReads(fields[0], n);
    FieldLinesDeep(fields[1..], n + 2, column);
    RowsDeep(fields[0], n + 2, column);
    var first, more := fields[0].rows + fields[0].notes, AllFieldLines(fields[1..], n + 2);
    forall k | 0 <= k < |StepLines(fields, n)| ensures IsDeeper(StepLines(fields, n)[k], column) {
      InThree([], Spaces(n) + ("- " + FieldText(fields[0])), first + more, k);
      assert k > 0 ==> StepLines(fields, n)[k] == if k - 1 < |first| then first[k - 1] else more[k - 1 - |first|];
    }
  }

  lemma RowsDeep(f: Field, n: nat, column: nat)
    requires n > column && IsField(f, n, column)
    ensures forall k :: 0 <= k < |f.rows + f.notes| ==> IsDeeper((f.rows + f.notes)[k], column)
  {
    hide IsName, IsHead, TrimStart;
  }

  lemma {:induction false} StepLinesDeep(steps: seq<Written>, n: nat, column: nat)
    requires n > column && AreWritten(steps, n, column)
    ensures forall k :: 0 <= k < |AllStepLines(steps, n)| ==> IsDeeper(AllStepLines(steps, n)[k], column)
  {
    hide StepLines, IsDeeper, AreFields;
    if steps == [] {
    } else {
      StepDeep(steps[0], n, column);
      StepLinesDeep(steps[1..], n, column);
    }
  }

  /** A workflow with this job among others. */
  function WorkflowLines(header: Lines, others: Lines, name: string, keys: seq<Field>, steps: seq<Written>, rest: Lines,
                         column: nat): Lines
    requires forall k :: 0 <= k < |steps| ==> steps[k] != []
  {
    header + (["jobs:"] + (others + ([Spaces(column) + (name + ":")] + (JobLines(keys, steps, column + 2, column + 4) + rest))))
  }

  /** The round trip: any written steps, of values on one line or on many, put into a
      job among other jobs, are read back as the steps they stand for, with the job's
      own keys. */
  lemma WorkflowRoundTrips(header: Lines, others: Lines, name: string, keys: seq<Field>, steps: seq<Written>, rest: Lines,
                           column: nat)
    requires NoJobsLine(header) && column > 0 && AreOthers(others, name, column)
    requires name != "" && !IsSpace(name[0]) && name[0] != '#'
    requires AreKeys(keys, column + 2, column) && AreWritten(steps, column + 4, column)
    requires rest == [] || !IsDeeper(rest[0], column)
    ensures var block := JobBlock(WorkflowLines(header, others, name, keys, steps, rest, column), name);
      block == Some(Block(|header| + |others| + 2, JobLines(keys, steps, column + 2, column + 4)))
      && ParseSteps(block.value.lines) == Parsed(AddKeys(map[], keys)["steps" := ""], StepsOf(steps))
  {
    hide JobBlock, ParseSteps, IsDeeper, AllFieldLines, AllStepLines, AddKeys, AreFields, AreOthers, StepOf;
    FieldLinesDeep(keys, column + 2, column);
    StepLinesDeep(steps, column + 4, column);
    StepsLineDeep(column);
    var body := JobLines(keys, steps, column + 2, column + 4);
    forall k | 0 <= k < |body| ensures IsDeeper(body[k], column) {
      InThree(AllFieldLines(keys, column + 2), Spaces(column + 2) + "steps:", AllStepLines(steps, column + 4), k);
    }
    JobFound(header, others, name, body, rest, column);
    JobReads(keys, steps, column + 2, column + 4, column);
  }

  lemma InThree(a: Lines, line: string, b: Lines, k: nat)
    requires k < |a + ([line] + b)|
    ensures var all := a + ([line] + b);
      if k < |a| then all[k] == a[k] else if k == |a| then all[k] == line else all[k] == b[k - |a| - 1]
  {
  }

  lemma StepsLineDeep(column: nat)
    ensures IsDeeper(Spaces(column + 2) + "steps:", column)
  {
    StepsLine(column + 2);
  }
}
