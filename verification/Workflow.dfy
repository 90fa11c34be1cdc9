/**
 How scripts/check-ci-governance.mjs reads a workflow: the block of a job among
 the jobs, the job's own keys and its steps. Everything is read from the lines
 that are left.
 */
module Workflow {
  import opened Text

  type Lines = seq<string>

  // ------------------------------------------------------------------- lines

  predicate IsBlank(line: string) { TrimStart(line) == "" }

  predicate IsContent(line: string) {
    !IsBlank(line) && TrimStart(line)[0] != '#'
  }

  function Indent(line: string): nat { |line| - |TrimStart(line)| }

  /** `/^<word>\s*$/` */
  predicate IsWordLine(line: string, word: string) {
    StartsWith(line, word) && IsBlank(line[|word|..])
  }

  predicate IsNameStart(c: char) { IsLetter(c) || c == '_' }

  predicate IsNameChar(c: char) { IsLetter(c) || IsDigit(c) || c == '_' || c == '-' }

  function NameRun(t: string): (n: nat)
    ensures n <= |t|
  {
    if t != "" && IsNameChar(t[0]) then 1 + NameRun(t[1..]) else 0
  }

  datatype KeyLine = KeyLine(key: string, value: string)

  predicate HasTerminator(t: string) {
    exists k :: 0 <= k < |t| && IsLineTerminator(t[k])
  }

  /** `KEY`; a missing value is empty. */
  function MatchKey(t: string): Option<KeyLine> {
    if t == "" || !IsNameStart(t[0]) then None
    else
      var n := 1 + NameRun(t[1..]);
      if n >= |t| || t[n] != ':' then None
      else
        var rest := t[n + 1..];
        if rest == "" then Some(KeyLine(t[..n], ""))
        else if IsSpace(rest[0]) && !HasTerminator(TrimStart(rest)) then Some(KeyLine(t[..n], TrimStart(rest)))
        else None
  }

  /** `unquote` */
  function Unquote(value: string): string {
    var v := Trim(value);
    if |v| >= 2 && IsQuote(v[0]) && v[|v| - 1] == v[0] && !HasTerminator(v[1..|v| - 1]) then v[1..|v| - 1] else v
  }

  // --------------------------------------------------------------------- jobs

  datatype Block = Block(start: nat, lines: Lines)

  /** The lines after the `jobs:` line, and where it is. */
  function AfterJobs(lines: Lines, at: nat): Option<Block> {
    if lines == [] then None
    else if IsWordLine(lines[0], "jobs:") then Some(Block(at + 1, lines[1..]))
    else AfterJobs(lines[1..], at + 1)
  }

  predicate IsDeeper(line: string, indent: nat) { IsBlank(line) || Indent(line) > indent }

  /** The lines of a job, up to the first that is not indented deeper. */
  function JobBody(lines: Lines, indent: nat): Lines {
    if lines == [] || !IsDeeper(lines[0], indent) then [] else [lines[0]] + JobBody(lines[1..], indent)
  }

  function FindJob(lines: Lines, at: nat, indent: Option<nat>, name: string): Option<Block> {
    if lines == [] then None
    else if !IsContent(lines[0]) then FindJob(lines[1..], at + 1, indent, name)
    else if Indent(lines[0]) == 0 then None
    else
      var own := if indent.Some? then indent.value else Indent(lines[0]);
      if Indent(lines[0]) != own || Trim(lines[0]) != name + ":" then FindJob(lines[1..], at + 1, Some(own), name)
      else Some(Block(at + 1, JobBody(lines[1..], own)))
  }

  /** `jobBlock` on the lines of the text. */
  function JobBlock(lines: Lines, name: string): Option<Block> {
    match AfterJobs(lines, 0)
    case None => None
    case Some(jobs) => FindJob(jobs.lines, jobs.start, None, name)
  }

  // -------------------------------------------------------------------- steps

  datatype Step = Step(index: nat, name: Option<string>, cond: Option<string>, run: Option<string>,
                       multiline: bool, uses: Option<string>)

  datatype Parsed = Parsed(keys: map<string, string>, steps: seq<Step>)

  predicate IsStepKey(key: string) { key == "name" || key == "if" || key == "run" || key == "uses" }

  /** The lines a value goes on with. */
  function Continued(lines: Lines, indent: nat): seq<string> {
    if lines == [] || !IsDeeper(lines[0], indent) then []
    else (if IsBlank(lines[0]) then [] else [Trim(lines[0])]) + Continued(lines[1..], indent)
  }

  predicate IsBlockValue(value: string) { value != "" && (value[0] == '|' || value[0] == '>') }

  function SetKey(step: Step, key: string, value: string, continued: seq<string>): Step {
    var parts := if IsBlockValue(value) then continued else [Unquote(value)] + continued;
    if key == "run" then
      step.(multiline := IsBlockValue(value) || continued != [], run := Some(JoinWith(parts, "\n")))
    else if key == "name" then step.(name := Some(JoinWith(parts, " ")))
    else if key == "if" then step.(cond := Some(JoinWith(parts, " ")))
    else step.(uses := Some(JoinWith(parts, " ")))
  }

  function StepLine(step: Step, lines: Lines, indent: nat): Step
    requires lines != []
  {
    if !IsContent(lines[0]) || Indent(lines[0]) != indent then step
    else match MatchKey(Trim(lines[0]))
      case None => step
      case Some(line) =>
        if IsStepKey(line.key) then SetKey(step, line.key, Trim(line.value), Continued(lines[1..], indent)) else step
  }

  function ReadStep(step: Step, lines: Lines, indent: nat): Step
    decreases lines
  {
    if lines == [] then step else ReadStep(StepLine(step, lines, indent), lines[1..], indent)
  }

  function EmptyStep(index: nat): Step { Step(index, None, None, None, false, None) }

  predicate EndsStep(line: string, indent: nat) { IsContent(line) && Indent(line) <= indent }

  function StepBody(lines: Lines, indent: nat): (r: Lines)
    ensures |r| <= |lines|
  {
    if lines == [] || EndsStep(lines[0], indent) then [] else [lines[0]] + StepBody(lines[1..], indent)
  }

  predicate IsDashItem(line: string) { StartsWith(TrimStart(line), "- ") }

  /** The step that starts on this line, whose dash is at the indentation. */
  function StepAt(lines: Lines, indent: nat, index: nat): Step
    requires lines != [] && IsDashItem(lines[0])
  {
    ReadStep(EmptyStep(index), [Spaces(indent + 2) + TrimStart(lines[0])[2..]] + StepBody(lines[1..], indent), indent + 2)
  }

  predicate InSteps(line: string, jobIndent: nat) { !IsContent(line) || Indent(line) > jobIndent }

  datatype Items = Items(steps: seq<Step>, rest: Lines)

  /** The steps below a `steps:` key, after the given ones, and what follows. */
  function StepItems(lines: Lines, jobIndent: nat, own: Option<nat>, steps: seq<Step>): (r: Items)
    ensures |r.rest| <= |lines|
    decreases |lines|
  {
    if lines == [] || !InSteps(lines[0], jobIndent) then Items(steps, lines)
    else if !IsContent(lines[0]) then StepItems(lines[1..], jobIndent, own, steps)
    else
      var indent := if own.Some? then own.value else Indent(lines[0]);
      if Indent(lines[0]) != indent || !IsDashItem(lines[0]) then StepItems(lines[1..], jobIndent, Some(indent), steps)
      else
        StepItems(lines[1 + |StepBody(lines[1..], indent)|..], jobIndent, Some(indent),
                  steps + [StepAt(lines, indent, |steps| + 1)])
  }

  function JobKeys(lines: Lines, jobIndent: nat, done: Parsed): Parsed
    decreases |lines|
  {
    if lines == [] then done
    else if !IsContent(lines[0]) || Indent(lines[0]) != jobIndent then JobKeys(lines[1..], jobIndent, done)
    else match MatchKey(Trim(lines[0]))
      case None => JobKeys(lines[1..], jobIndent, done)
      case Some(line) =>
        var keys := done.keys[line.key := Unquote(line.value)];
        if line.key != "steps" then JobKeys(lines[1..], jobIndent, Parsed(keys, done.steps))
        else
          var items := StepItems(lines[1..], jobIndent, None, done.steps);
          JobKeys(items.rest, jobIndent, Parsed(keys, items.steps))
  }

  function FirstContent(lines: Lines): Option<string> {
    if lines == [] then None else if IsContent(lines[0]) then Some(lines[0]) else FirstContent(lines[1..])
  }

  /** `parseSteps` */
  function ParseSteps(block: Lines): Parsed {
    match FirstContent(block)
    case None => Parsed(map[], [])
    case Some(line) => JobKeys(block, Indent(line), Parsed(map[], []))
  }
}
