/**
 The rules by which scripts/check-ci-governance.mjs accepts the integration job:
 it always runs the stack commands, whole, in their order and unconditioned.
 */
module StackRules {
  import opened Text
  import opened Workflow
  import opened WorkflowReader
  import opened WorkflowRoundTrip

  const COMPOSE_UP := "docker compose up --build -d --wait"
  const UP_AND_WAIT := "docker compose up" + " -d --wait"
  const FORCED := " --force-recreate"
  const RECREATED := " identity storage-init api"
  const RECREATE := UP_AND_WAIT + (FORCED + RECREATED)

  function Script(name: string): string { "node scripts/" + name }

  const STORAGE := "check-storage-bootstrap.mjs"
  const DATABASE := "generate-db-script.mjs" + " --check"
  const SMOKE := "smoke-local-integration.mjs"
  const IDENTITY := "check-identity.mjs"
  const LOAD := "load-test.mjs --videos 3"
  const LIVE := "check-observability.mjs" + " --live"

  const STACK_COMMANDS: seq<string> := [
    COMPOSE_UP,
    Script(STORAGE),
    Script(DATABASE),
    Script(SMOKE),
    Script(IDENTITY),
    RECREATE,
    Script(SMOKE),
    Script(IDENTITY),
    Script(LOAD),
    Script(LIVE)]

  const TOKEN := "SERVICES_READ_TOKEN"

  // --------------------------------------------------------------- conditions

  /** `s.includes(sub)` */
  predicate Includes(s: string, sub: string) { IndexOf(s, sub, 0) != -1 }

  lemma IncludesItself(s: string)
    ensures Includes(s, s)
  {
    assert s[0..0 + |s|] == s;
    assert OccursAt(s, s, 0);
  }

  /** The step names that may carry a condition, and which. */
  function AllowedCondition(name: Option<string>): Option<string> {
    if name == Some("Collect container logs") || name == Some("Upload container logs") then Some("failure()")
    else if name == Some("Tear the stack down") then Some("always()")
    else None
  }

  /** `expressionOf`: what stands between `${{` and `}}`. */
  function ExpressionOf(value: string): string {
    if |value| >= 5 && value[..3] == "${{" && value[|value| - 2..] == "}}"
       && !HasTerminator(Trim(value[3..|value| - 2]))
    then Trim(value[3..|value| - 2])
    else value
  }

  predicate Mentions(s: Step, commands: seq<string>) {
    s.run.Some? && exists c :: c in commands && Includes(s.run.value, c)
  }

  predicate HasAllowedCondition(s: Step) {
    s.cond.Some? ==> AllowedCondition(s.name) == Some(ExpressionOf(s.cond.value))
  }

  /** Rule 2: a condition that is not allowed, or on a step that runs the stack. */
  predicate BadCondition(s: Step, commands: seq<string>) {
    s.cond.Some? && (!HasAllowedCondition(s) || Mentions(s, commands))
  }

  /** Rule 3: a stack command with other shell text around it. */
  predicate Wraps(s: Step, command: string) {
    s.run.Some? && Includes(s.run.value, command) && (s.multiline || s.run.value != command)
  }

  predicate IsStackRun(s: Step, commands: seq<string>) {
    !s.multiline && s.run.Some? && s.run.value in commands
  }

  /** The stack commands as the job runs them. */
  function StackRuns(steps: seq<Step>, commands: seq<string>): seq<string> {
    if steps == [] then []
    else (if IsStackRun(steps[0], commands) then [steps[0].run.value] else []) + StackRuns(steps[1..], commands)
  }

  // ----------------------------------------------------- what the rules amount to

  /** A step that runs one stack command and nothing else, always. */
  predicate RunsWhole(s: Step, commands: seq<string>) {
    IsStackRun(s, commands) && s.cond.None? && forall c :: c in commands && Includes(s.run.value, c) ==> s.run.value == c
  }

  /** The runs of the steps in which a stack command occurs at all. */
  function MentioningRuns(steps: seq<Step>, commands: seq<string>): seq<string> {
    if steps == [] then []
    else (if Mentions(steps[0], commands) then [steps[0].run.value] else []) + MentioningRuns(steps[1..], commands)
  }

  /** The stack is run: the steps in which a stack command occurs at all are the
      required sequence, each of them that command alone and never skipped, and
      no other step has a condition but an allowed one. */
  predicate RunsTheStack(steps: seq<Step>, commands: seq<string>) {
    MentioningRuns(steps, commands) == commands
    && forall k :: 0 <= k < |steps| ==>
         HasAllowedCondition(steps[k]) && (Mentions(steps[k], commands) ==> RunsWhole(steps[k], commands))
  }

  predicate StepRulesHold(steps: seq<Step>, commands: seq<string>) {
    (forall k :: 0 <= k < |steps| ==> !BadCondition(steps[k], commands))
    && (forall k, c :: 0 <= k < |steps| && c in commands ==> !Wraps(steps[k], c))
    && StackRuns(steps, commands) == commands
  }

  lemma OneStep(s: Step, commands: seq<string>)
    ensures (!BadCondition(s, commands) && forall c :: c in commands ==> !Wraps(s, c))
       <==> (HasAllowedCondition(s) && (Mentions(s, commands) ==> RunsWhole(s, commands)))
    ensures IsStackRun(s, commands) ==> Mentions(s, commands)
  {
    hide Includes, AllowedCondition, ExpressionOf;
    if s.run.Some? {
      IncludesItself(s.run.value);
    }
  }

  lemma {:induction false} SameRuns(steps: seq<Step>, commands: seq<string>)
    requires forall k :: 0 <= k < |steps| ==> Mentions(steps[k], commands) ==> RunsWhole(steps[k], commands)
    ensures StackRuns(steps, commands) == MentioningRuns(steps, commands)
  {
    hide Mentions, Includes;
    if steps == [] {
    } else {
      OneStep(steps[0], commands);
      SameRuns(steps[1..], commands);
    }
  }

  /** The three rules hold of the steps exactly when they run the stack. */
  lemma StepRulesExactly(steps: seq<Step>, commands: seq<string>)
    ensures StepRulesHold(steps, commands) <==> RunsTheStack(steps, commands)
  {
    hide BadCondition, Wraps, Mentions, RunsWhole, HasAllowedCondition, StackRuns, MentioningRuns;
    forall k | 0 <= k < |steps|
      ensures (!BadCondition(steps[k], commands) && forall c :: c in commands ==> !Wraps(steps[k], c))
         <==> (HasAllowedCondition(steps[k]) && (Mentions(steps[k], commands) ==> RunsWhole(steps[k], commands)))
    {
      OneStep(steps[k], commands);
    }
    if forall k :: 0 <= k < |steps| ==> Mentions(steps[k], commands) ==> RunsWhole(steps[k], commands) {
      SameRuns(steps, commands);
    }
  }

  predicate NoneIncludesAnother(commands: seq<string>) {
    forall c, d :: c in commands && d in commands && Includes(c, d) ==> c == d
  }

  /** A step that is one command and nothing else. */
  predicate IsBare(s: Step, command: string) {
    s.run == Some(command) && !s.multiline && s.cond.None?
  }

  lemma {:induction false} BareRuns(steps: seq<Step>, runs: seq<string>, commands: seq<string>)
    requires |steps| == |runs| && forall k :: 0 <= k < |steps| ==> IsBare(steps[k], runs[k]) && runs[k] in commands
    ensures MentioningRuns(steps, commands) == runs
  {
    hide Mentions;
    if steps == [] {
    } else {
      OneStep(steps[0], commands);
      BareRuns(steps[1..], runs[1..], commands);
      assert [runs[0]] + runs[1..] == runs;
    }
  }

  /** One bare step for each command, in order, runs the stack, when no command is
      part of another. */
  lemma BareStepsRunTheStack(steps: seq<Step>, commands: seq<string>)
    requires NoneIncludesAnother(commands)
    requires |steps| == |commands| && forall k :: 0 <= k < |steps| ==> IsBare(steps[k], commands[k])
    ensures RunsTheStack(steps, commands)
  {
    hide Mentions, Includes;
    BareRuns(steps, commands, commands);
    assert forall k :: 0 <= k < |steps| ==> commands[k] in commands;
  }

  // ------------------------------------------------------------ the whole job

  /** `/^\s*(?:-\s+)?<key>/` */
  predicate SetsKey(line: string, key: string) {
    var t := TrimStart(line);
    StartsWith(t, key) || (|t| > 1 && t[0] == '-' && IsSpace(t[1]) && StartsWith(TrimStart(t[1..]), key))
  }

  predicate NoLineSets(lines: Lines, key: string) {
    forall k :: 0 <= k < |lines| ==> !SetsKey(lines[k], key)
  }

  predicate NoToken(lines: Lines) {
    forall k :: 0 <= k < |lines| ==> !Includes(lines[k], TOKEN)
  }

  function DefaultLines(lines: Lines): Lines {
    if lines == [] || (IsContent(lines[0]) && Indent(lines[0]) == 0) then [] else [lines[0]] + DefaultLines(lines[1..])
  }

  /** The lines of the workflow's own `defaults:`. */
  function WorkflowDefaults(lines: Lines): Lines {
    if lines == [] then []
    else if IsWordLine(lines[0], "defaults:") then DefaultLines(lines[1..])
    else WorkflowDefaults(lines[1..])
  }

  datatype Problem =
    | NoJob
    | JobConditioned
    | JobSets(key: string)
    | DefaultShell
    | Conditioned(index: nat)
    | Wrapped(index: nat, command: string)
    | TokenAt(line: nat)
    | OutOfOrder(position: nat)

  /** What the check wants of the text as a whole. */
  predicate IsGoverned(lines: Lines) {
    var block := JobBlock(lines, "integration");
    block.Some?
    && "if" !in ParseSteps(block.value.lines).keys
    && NoLineSets(block.value.lines, "shell:") && NoLineSets(block.value.lines, "continue-on-error:")
    && NoLineSets(WorkflowDefaults(lines), "shell:")
    && NoToken(lines)
    && RunsTheStack(ParseSteps(block.value.lines).steps, STACK_COMMANDS)
  }

  method AnyLineSets(lines: Lines, key: string) returns (found: bool)
    ensures found <==> !NoLineSets(lines, key)
  {
    hide SetsKey;
    for k := 0 to |lines|
      invariant forall j :: 0 <= j < k ==> !SetsKey(lines[j], key)
    {
      if SetsKey(lines[k], key) { return true; }
    }
    return false;
  }

  method MentionsCommand(s: Step, commands: seq<string>) returns (found: bool)
    ensures found <==> Mentions(s, commands)
  {
    hide Includes;
    if s.run.None? { return false; }
    for k := 0 to |commands|
      invariant forall j :: 0 <= j < k ==> !Includes(s.run.value, commands[j])
    {
      if Includes(s.run.value, commands[k]) { return true; }
    }
    return false;
  }

  /** Rule 2 over the steps; a problem names its step's place. */
  method BadConditions(steps: seq<Step>, commands: seq<string>) returns (problems: seq<Problem>)
    ensures forall p :: p in problems <==> p.Conditioned? && p.index < |steps| && BadCondition(steps[p.index], commands)
    ensures problems == [] <==> forall k :: 0 <= k < |steps| ==> !BadCondition(steps[k], commands)
  {
    hide BadCondition;
    problems := [];
    for k := 0 to |steps|
      invariant forall p :: p in problems <==> p.Conditioned? && p.index < k && BadCondition(steps[p.index], commands)
      invariant problems == [] <==> forall j :: 0 <= j < k ==> !BadCondition(steps[j], commands)
    {
      var bad := IsBadCondition(steps[k], commands);
      if bad { problems := problems + [Conditioned(k)]; }
    }
  }

  method IsBadCondition(s: Step, commands: seq<string>) returns (bad: bool)
    ensures bad <==> BadCondition(s, commands)
  {
    hide Mentions;
    if s.cond.None? { return false; }
    var runsStack := MentionsCommand(s, commands);
    bad := AllowedCondition(s.name) != Some(ExpressionOf(s.cond.value)) || runsStack;
  }

  /** Rule 3 over the steps. */
  method WrappedCommands(steps: seq<Step>, commands: seq<string>) returns (problems: seq<Problem>)
    ensures forall p :: p in problems <==>
      p.Wrapped? && p.index < |steps| && p.command in commands && Wraps(steps[p.index], p.command)
    ensures problems == [] <==> forall k, c :: 0 <= k < |steps| && c in commands ==> !Wraps(steps[k], c)
  {
    hide Wraps;
    problems := [];
    for k := 0 to |steps|
      invariant forall p :: p in problems <==>
        p.Wrapped? && p.index < k && p.command in commands && Wraps(steps[p.index], p.command)
    {
      for n := 0 to |commands|
        invariant forall p :: p in problems <==>
          p.Wrapped? && p.index <= k && (p.index < k ==> p.command in commands) && (p.index == k ==> p.command in commands[..n])
          && Wraps(steps[p.index], p.command)
      {
        assert forall c :: c in commands[..n + 1] <==> c in commands[..n] || c == commands[n];
        if Wraps(steps[k], commands[n]) { problems := problems + [Wrapped(k, commands[n])]; }
      }
      assert commands[..|commands|] == commands;
    }
    if problems != [] {
      assert problems[0] in problems;
    } else {
      forall k, c | 0 <= k < |steps| && c in commands ensures !Wraps(steps[k], c) {
        assert Wrapped(k, c) !in problems;
      }
    }
  }

  /** The order: the first place where the stack commands run differ from the
      required ones. */
  method FirstOutOfOrder(steps: seq<Step>, commands: seq<string>) returns (at: Option<nat>)
    ensures at.None? <==> StackRuns(steps, commands) == commands
    ensures at.Some? ==> var stack, n := StackRuns(steps, commands), at.value;
      n <= |stack| && n <= |commands| && stack[..n] == commands[..n]
      && (n == |stack| || n == |commands| || stack[n] != commands[n])
  {
    hide StackRuns, Reached;
    var stack := [];
    ghost var whole := StackRuns(steps, commands);
    ReachedStart(whole);
    assert steps[0..] == steps;
    for k := 0 to |steps|
      invariant Reached(whole, stack, StackRuns(steps[k..], commands))
    {
      StackRunsStep(steps, commands, k);
      if !steps[k].multiline && steps[k].run.Some? && steps[k].run.value in commands {
        ReachedMore(whole, stack, [steps[k].run.value], StackRuns(steps[k + 1..], commands));
        stack := stack + [steps[k].run.value];
      }
    }
    StackRunsEnd(steps, commands);
    ReachedEnd(whole, stack, []);
    var longest := if |stack| > |commands| then |stack| else |commands|;
    for i := 0 to longest
      invariant i <= |stack| && i <= |commands| && stack[..i] == commands[..i]
    {
      if i < |stack| && i < |commands| && stack[i] == commands[i] { continue; }
      return Some(i);
    }
    assert stack[..longest] == stack && commands[..longest] == commands;
    return None;
  }

  lemma StackRunsStep(steps: seq<Step>, commands: seq<string>, k: nat)
    requires k < |steps|
    ensures var rest := StackRuns(steps[k + 1..], commands);
      StackRuns(steps[k..], commands)
      == if IsStackRun(steps[k], commands) then [steps[k].run.value] + rest else rest
  {
    assert steps[k..][1..] == steps[k + 1..];
  }

  lemma StackRunsEnd(steps: seq<Step>, commands: seq<string>)
    ensures StackRuns(steps[|steps|..], commands) == []
  {
  }

  method TokenLines(lines: Lines) returns (problems: seq<Problem>)
    ensures problems == [] <==> NoToken(lines)
    ensures forall p :: p in problems <==> p.TokenAt? && 1 <= p.line <= |lines| && Includes(lines[p.line - 1], TOKEN)
  {
    hide Includes;
    problems := [];
    for k := 0 to |lines|
      invariant problems == [] <==> forall j :: 0 <= j < k ==> !Includes(lines[j], TOKEN)
      invariant forall p :: p in problems <==> p.TokenAt? && 1 <= p.line <= k && Includes(lines[p.line - 1], TOKEN)
    {
      if Includes(lines[k], TOKEN) { problems := problems + [TokenAt(k + 1)]; }
    }
  }

  method ReadDefaults(lines: Lines) returns (defaults: Lines)
    ensures defaults == WorkflowDefaults(lines)
  {
    hide IsWordLine, DefaultLines;
    var start := 0;
    assert lines[0..] == lines;
    while start < |lines| && !IsWordLine(lines[start], "defaults:")
      invariant start <= |lines| && WorkflowDefaults(lines[start..]) == WorkflowDefaults(lines)
    {
      Next(lines, start);
      start := start + 1;
    }
    if start == |lines| { return []; }
    Next(lines, start);
    defaults := ReadDefaultLines(lines, start + 1);
  }

  method ReadDefaultLines(lines: Lines, first: nat) returns (defaults: Lines)
    requires first <= |lines|
    ensures defaults == DefaultLines(lines[first..])
  {
    hide IsContent, Indent;
    defaults := [];
    var j := first;
    while j < |lines| && (!IsContent(lines[j]) || Indent(lines[j]) > 0)
      invariant first <= j <= |lines|
      invariant defaults + DefaultLines(lines[j..]) == DefaultLines(lines[first..])
    {
      Next(lines, j);
      assert defaults + DefaultLines(lines[j..]) == defaults + [lines[j]] + DefaultLines(lines[j + 1..]);
      defaults := defaults + [lines[j]];
      j := j + 1;
    }
    assert j < |lines| ==> lines[j..][0] == lines[j];
    assert DefaultLines(lines[j..]) == [];
  }

  /** The integration part of `workflowProblems`: nothing is reported exactly of a
      workflow whose integration job always runs the stack. */
  method IntegrationProblems(lines: Lines) returns (problems: seq<Problem>)
    ensures problems == [] <==> IsGoverned(lines)
  {
    hide JobBlock, ParseSteps, WorkflowDefaults, NoLineSets, NoToken, StackRuns, RunsTheStack, Wraps, BadCondition;
    var block := ReadJobBlock(lines, "integration");
    if block.None? { return [NoJob]; }
    problems := [];
    var parsed := ReadSteps(block.value.lines);
    if "if" in parsed.keys { problems := problems + [JobConditioned]; }
    var shell := AnyLineSets(block.value.lines, "shell:");
    if shell { problems := problems + [JobSets("shell")]; }
    var lenient := AnyLineSets(block.value.lines, "continue-on-error:");
    if lenient { problems := problems + [JobSets("continue-on-error")]; }
    var defaults := ReadDefaults(lines);
    var defaultShell := AnyLineSets(defaults, "shell:");
    if defaultShell { problems := problems + [DefaultShell]; }
    var conditioned := BadConditions(parsed.steps, STACK_COMMANDS);
    var wrapped := WrappedCommands(parsed.steps, STACK_COMMANDS);
    var tokens := TokenLines(lines);
    problems := problems + conditioned + wrapped + tokens;
    var at := FirstOutOfOrder(parsed.steps, STACK_COMMANDS);
    if at.Some? { problems := problems + [OutOfOrder(at.value)]; }
    StepRulesExactly(parsed.steps, STACK_COMMANDS);
  }

  /** On a written workflow the rules judge the steps it stands for: it is accepted
      exactly when they run the stack, nothing conditions the job, and no line sets
      what it must not. */
  lemma WrittenWorkflowExactly(header: Lines, others: Lines, keys: seq<Field>, steps: seq<Written>, rest: Lines, column: nat)
    requires NoJobsLine(header) && column > 0 && AreOthers(others, "integration", column)
    requires AreKeys(keys, column + 2, column) && AreWritten(steps, column + 4, column)
    requires rest == [] || !IsDeeper(rest[0], column)
    ensures var lines := WorkflowLines(header, others, "integration", keys, steps, rest, column);
      var block := JobBlock(lines, "integration");
      block.Some?
      && (IsGoverned(lines) <==>
            "if" !in AddKeys(map[], keys) && RunsTheStack(StepsOf(steps), STACK_COMMANDS)
            && NoLineSets(block.value.lines, "shell:") && NoLineSets(block.value.lines, "continue-on-error:")
            && NoLineSets(WorkflowDefaults(lines), "shell:") && NoToken(lines))
  {
    hide JobBlock, ParseSteps, WorkflowDefaults, NoLineSets, NoToken, RunsTheStack, WorkflowLines, AreWritten, AreOthers,
         AreKeys, NoJobsLine, AddKeys, IsDeeper, StepsOf;
    WorkflowRoundTrips(header, others, "integration", keys, steps, rest, column);
  }

  /** A stack command is never accepted with other shell text in the same value, on
      its line or on any line its value goes on with, nor as a block. */
  lemma MaskedCommandRefused(header: Lines, others: Lines, keys: seq<Field>, steps: seq<Written>, rest: Lines, column: nat,
                             k: nat, command: string)
    requires NoJobsLine(header) && column > 0 && AreOthers(others, "integration", column)
    requires AreKeys(keys, column + 2, column) && AreWritten(steps, column + 4, column)
    requires rest == [] || !IsDeeper(rest[0], column)
    requires k < |steps| && LastOf(steps[k], "run").Some? && command in STACK_COMMANDS
    requires var run := LastOf(steps[k], "run").value;
      Includes(JoinWith(Pieces(run), "\n"), command) && (IsLong(run) || run.head != Inline(command))
    ensures !IsGoverned(WorkflowLines(header, others, "integration", keys, steps, rest, column))
  {
    GovernedRuns(header, others, keys, steps, rest, column);
    NoEmptyCommand(command);
    MaskedRun(steps[k], k + 1, command);
    StepAtPlace(steps, k);
    hide *;
    NotTheStack(StepsOf(steps), k, STACK_COMMANDS, command);
  }

  lemma StepAtPlace(steps: seq<Written>, k: nat)
    requires k < |steps|
    ensures k < |StepsOf(steps)| && StepsOf(steps)[k] == StepOf(steps[k], k + 1)
  {
    hide StepOf;
  }

  lemma NoEmptyCommand(command: string)
    requires command in STACK_COMMANDS
    ensures command != ""
  {
  }

  lemma GovernedRuns(header: Lines, others: Lines, keys: seq<Field>, steps: seq<Written>, rest: Lines, column: nat)
    requires NoJobsLine(header) && column > 0 && AreOthers(others, "integration", column)
    requires AreKeys(keys, column + 2, column) && AreWritten(steps, column + 4, column)
    requires rest == [] || !IsDeeper(rest[0], column)
    ensures IsGoverned(WorkflowLines(header, others, "integration", keys, steps, rest, column)) ==>
      RunsTheStack(StepsOf(steps), STACK_COMMANDS)
  {
    WrittenWorkflowExactly(header, others, keys, steps, rest, column);
    hide *;
  }

  lemma MaskedRun(fields: Written, index: nat, command: string)
    requires LastOf(fields, "run").Some? && command != ""
    requires var run := LastOf(fields, "run").value;
      Includes(JoinWith(Pieces(run), "\n"), command) && (IsLong(run) || run.head != Inline(command))
    ensures var s := StepOf(fields, index);
      s.run.Some? && Includes(s.run.value, command) && (s.multiline || s.run.value != command)
  {
    hide Texts, LastOf, ValueOf, Includes, Pieces, JoinWith;
    RunValue(fields);
    if !IsLong(LastOf(fields, "run").value) {
      ShortValue(LastOf(fields, "run").value);
    }
  }

  lemma RunValue(fields: Written)
    requires LastOf(fields, "run").Some?
    ensures ValueOf(fields, "run", "\n") == Some(JoinWith(Pieces(LastOf(fields, "run").value), "\n"))
  {
    hide Pieces, LastOf;
  }

  /** A step that mentions a stack command but is not that command alone. */
  lemma NotTheStack(steps: seq<Step>, k: nat, commands: seq<string>, command: string)
    requires k < |steps| && command in commands && steps[k].run.Some? && Includes(steps[k].run.value, command)
    requires steps[k].multiline || steps[k].run.value != command
    ensures !RunsTheStack(steps, commands)
  {
    hide Includes, MentioningRuns;
    assert Mentions(steps[k], commands);
  }

  lemma ShortValue(f: Field)
    requires !IsLong(f)
    ensures JoinWith(Pieces(f), "\n") == match f.head case Inline(v) => v case _ => ""
  {
    hide Texts;
  }
}
