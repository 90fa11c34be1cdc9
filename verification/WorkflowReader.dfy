/**
 The index loops of `jobBlock` and `parseSteps`, step by step, against what the
 lines say.
 */
module WorkflowReader {
  import opened Text
  import opened Workflow

  lemma Next<T>(s: seq<T>, k: nat)
    requires k < |s|
    ensures s[k..] != [] && s[k..][0] == s[k] && s[k..][1..] == s[k + 1..]
  {
  }

  method ReadJobBlock(lines: Lines, name: string) returns (block: Option<Block>)
    ensures block == JobBlock(lines, name)
  {
    hide IsContent, IsWordLine, IsDeeper, Indent, Trim, FindJob, AfterJobs, JobBody;
    var jobs := 0;
    while jobs < |lines| && !IsWordLine(lines[jobs], "jobs:")
      invariant jobs <= |lines|
      invariant AfterJobs(lines[jobs..], jobs) == AfterJobs(lines, 0)
    {
      AfterJobsStep(lines, jobs);
      jobs := jobs + 1;
    }
    AfterJobsEnd(lines, jobs);
    if jobs == |lines| { return None; }
    block := FindJobLine(lines, jobs + 1, name);
  }

  lemma AfterJobsStep(lines: Lines, jobs: nat)
    requires jobs < |lines| && !IsWordLine(lines[jobs], "jobs:")
    ensures AfterJobs(lines[jobs..], jobs) == AfterJobs(lines[jobs + 1..], jobs + 1)
  {
    Next(lines, jobs);
  }

  lemma AfterJobsEnd(lines: Lines, jobs: nat)
    requires jobs <= |lines| && (jobs < |lines| ==> IsWordLine(lines[jobs], "jobs:"))
    ensures AfterJobs(lines[jobs..], jobs) == if jobs == |lines| then None else Some(Block(jobs + 1, lines[jobs + 1..]))
  {
    if jobs < |lines| { Next(lines, jobs); }
  }

  method FindJobLine(lines: Lines, first: nat, name: string) returns (block: Option<Block>)
    requires first <= |lines|
    ensures block == FindJob(lines[first..], first, None, name)
  {
    hide IsContent, IsDeeper, Indent, Trim, JobBody;
    var own: Option<nat> := None;
    var i := first;
    while i < |lines|
      invariant first <= i <= |lines|
      invariant FindJob(lines[i..], i, own, name) == FindJob(lines[first..], first, None, name)
    {
      Next(lines, i);
      var line := lines[i];
      if !IsContent(line) { i := i + 1; continue; }
      var indent := Indent(line);
      if indent == 0 { return None; }
      if own.None? { own := Some(indent); }
      if indent != own.value || Trim(line) != name + ":" { i := i + 1; continue; }
      var body := ReadJobBody(lines, i + 1, own.value);
      return Some(Block(i + 1, body));
    }
    return None;
  }

  method ReadJobBody(lines: Lines, first: nat, indent: nat) returns (block: Lines)
    requires first <= |lines|
    ensures block == JobBody(lines[first..], indent)
  {
    hide IsDeeper, JobBody, Reached;
    block := [];
    var j := first;
    ghost var whole := JobBody(lines[first..], indent);
    ReachedStart(whole);
    while j < |lines| && IsDeeper(lines[j], indent)
      invariant first <= j <= |lines|
      invariant Reached(whole, block, JobBody(lines[j..], indent))
    {
      JobBodyStep(lines, j, indent);
      ReachedMore(whole, block, [lines[j]], JobBody(lines[j + 1..], indent));
      block := block + [lines[j]];
      j := j + 1;
    }
    JobBodyEnd(lines, j, indent);
    ReachedEnd(whole, block, []);
  }

  lemma JobBodyStep(lines: Lines, j: nat, indent: nat)
    requires j < |lines| && IsDeeper(lines[j], indent)
    ensures JobBody(lines[j..], indent) == [lines[j]] + JobBody(lines[j + 1..], indent)
  {
    hide IsDeeper;
    Next(lines, j);
  }

  lemma JobBodyEnd(lines: Lines, j: nat, indent: nat)
    requires j <= |lines| && (j < |lines| ==> !IsDeeper(lines[j], indent))
    ensures JobBody(lines[j..], indent) == []
  {
    hide IsDeeper;
  }

  method ReadSteps(block: Lines) returns (parsed: Parsed)
    ensures parsed == ParseSteps(block)
  {
    hide IsContent, Indent, JobKeys;
    var k := 0;
    while k < |block| && !IsContent(block[k])
      invariant k <= |block|
      invariant FirstContent(block[k..]) == FirstContent(block)
    {
      Next(block, k);
      k := k + 1;
    }
    if k == |block| { return Parsed(map[], []); }
    Next(block, k);
    parsed := ReadJobKeys(block, Indent(block[k]));
  }

  method ReadJobKeys(block: Lines, jobIndent: nat) returns (parsed: Parsed)
    ensures parsed == JobKeys(block, jobIndent, Parsed(map[], []))
  {
    hide IsContent, Indent, MatchKey, Unquote, Trim, StepItems;
    var keys: map<string, string>, steps: seq<Step> := map[], [];
    var i := 0;
    assert block[0..] == block;
    while i < |block|
      invariant i <= |block|
      invariant JobKeys(block[i..], jobIndent, Parsed(keys, steps)) == JobKeys(block, jobIndent, Parsed(map[], []))
    {
      Next(block, i);
      var line := block[i];
      if !IsContent(line) || Indent(line) != jobIndent { i := i + 1; continue; }
      var found := MatchKey(Trim(line));
      if found.None? { i := i + 1; continue; }
      keys := keys[found.value.key := Unquote(found.value.value)];
      i := i + 1;
      if found.value.key != "steps" { continue; }
      steps, i := ReadStepItems(block, i, jobIndent, steps);
    }
    parsed := Parsed(keys, steps);
  }

  /** A line below `steps:` that starts no step. */
  lemma LineSkipped(block: Lines, i: nat, jobIndent: nat, own: Option<nat>, steps: seq<Step>)
    requires i < |block| && InSteps(block[i], jobIndent)
    ensures !IsContent(block[i]) ==>
      StepItems(block[i..], jobIndent, own, steps) == StepItems(block[i + 1..], jobIndent, own, steps)
    ensures var indent := if own.Some? then own.value else Indent(block[i]);
      IsContent(block[i]) && (Indent(block[i]) != indent || !IsDashItem(block[i])) ==>
      StepItems(block[i..], jobIndent, own, steps) == StepItems(block[i + 1..], jobIndent, Some(indent), steps)
  {
    hide IsContent, Indent, IsDashItem, StepBody, StepAt, InSteps;
    Next(block, i);
  }

  lemma StepTaken(block: Lines, i: nat, jobIndent: nat, own: Option<nat>, steps: seq<Step>, next: nat)
    requires i < |block| && InSteps(block[i], jobIndent) && IsContent(block[i]) && IsDashItem(block[i])
    requires own.Some? ==> own.value == Indent(block[i])
    requires next == i + 1 + |StepBody(block[i + 1..], Indent(block[i]))| && next <= |block|
    ensures block[i..] != [] && block[i..][0] == block[i]
    ensures StepItems(block[i..], jobIndent, own, steps)
         == StepItems(block[next..], jobIndent, Some(Indent(block[i])),
                      steps + [StepAt(block[i..], Indent(block[i]), |steps| + 1)])
  {
    hide IsContent, Indent, IsDashItem, StepBody, StepAt, InSteps;
    Next(block, i);
    assert block[i..][next - i..] == block[next..];
  }

  lemma StepsEnd(block: Lines, i: nat, jobIndent: nat, own: Option<nat>, steps: seq<Step>)
    requires i <= |block| && (i < |block| ==> !InSteps(block[i], jobIndent))
    ensures StepItems(block[i..], jobIndent, own, steps) == Items(steps, block[i..])
  {
    hide InSteps;
    if i < |block| { Next(block, i); }
  }

  method ReadStepItems(block: Lines, first: nat, jobIndent: nat, before: seq<Step>) returns (steps: seq<Step>, i: nat)
    requires first <= |block|
    ensures first <= i <= |block|
    ensures Items(steps, block[i..]) == StepItems(block[first..], jobIndent, None, before)
  {
    hide IsContent, Indent, IsDashItem, StepBody, StepAt, InSteps, StepItems;
    steps, i := before, first;
    var own: Option<nat> := None;
    while i < |block| && InSteps(block[i], jobIndent)
      invariant first <= i <= |block|
      invariant StepItems(block[i..], jobIndent, own, steps) == StepItems(block[first..], jobIndent, None, before)
    {
      LineSkipped(block, i, jobIndent, own, steps);
      var line := block[i];
      ghost var known := own;
      if !IsContent(line) { i := i + 1; continue; }
      if own.None? { own := Some(Indent(line)); }
      if Indent(line) != own.value || !IsDashItem(line) { i := i + 1; continue; }
      var step, next := ReadStepAt(block, i, own.value, |steps| + 1);
      StepTaken(block, i, jobIndent, known, steps, next);
      steps := steps + [step];
      i := next;
    }
    StepsEnd(block, i, jobIndent, own, steps);
  }

  method ReadStepAt(block: Lines, at: nat, indent: nat, index: nat) returns (step: Step, next: nat)
    requires at < |block| && IsDashItem(block[at])
    ensures block[at..] != [] && block[at..][0] == block[at]
    ensures step == StepAt(block[at..], indent, index)
    ensures next == at + 1 + |StepBody(block[at + 1..], indent)| && next <= |block|
  {
    hide EndsStep, StepLine, ReadStep, Spaces, TrimStart, StepBody;
    Next(block, at);
    var lines := [Spaces(indent + 2) + TrimStart(block[at])[2..]];
    var body: Lines;
    body, next := ReadStepBody(block, at + 1, indent);
    lines := lines + body;
    step := ReadStepKeys(lines, indent + 2, index);
  }

  method ReadStepBody(block: Lines, first: nat, indent: nat) returns (body: Lines, next: nat)
    requires first <= |block|
    ensures body == StepBody(block[first..], indent) && next == first + |body| && next <= |block|
  {
    hide EndsStep, StepBody, Reached;
    body, next := [], first;
    ghost var whole := StepBody(block[first..], indent);
    ReachedStart(whole);
    while next < |block| && !EndsStep(block[next], indent)
      invariant first <= next <= |block| && next - first == |body|
      invariant Reached(whole, body, StepBody(block[next..], indent))
    {
      StepBodyStep(block, next, indent);
      ReachedMore(whole, body, [block[next]], StepBody(block[next + 1..], indent));
      body := body + [block[next]];
      next := next + 1;
    }
    StepBodyEnd(block, next, indent);
    ReachedEnd(whole, body, []);
  }

  lemma StepBodyStep(block: Lines, next: nat, indent: nat)
    requires next < |block| && !EndsStep(block[next], indent)
    ensures StepBody(block[next..], indent) == [block[next]] + StepBody(block[next + 1..], indent)
  {
    hide EndsStep;
    Next(block, next);
  }

  lemma StepBodyEnd(block: Lines, next: nat, indent: nat)
    requires next <= |block| && (next < |block| ==> EndsStep(block[next], indent))
    ensures StepBody(block[next..], indent) == []
  {
    hide EndsStep;
  }

  method ReadStepKeys(lines: Lines, indent: nat, index: nat) returns (step: Step)
    ensures step == ReadStep(EmptyStep(index), lines, indent)
  {
    hide StepLine;
    step := EmptyStep(index);
    var k := 0;
    assert lines[0..] == lines;
    while k < |lines|
      invariant k <= |lines|
      invariant ReadStep(step, lines[k..], indent) == ReadStep(EmptyStep(index), lines, indent)
    {
      Next(lines, k);
      step := ReadStepLine(step, lines, k, indent);
      k := k + 1;
    }
  }

  method ReadStepLine(before: Step, lines: Lines, k: nat, indent: nat) returns (step: Step)
    requires k < |lines|
    ensures lines[k..] != []
    ensures step == StepLine(before, lines[k..], indent)
  {
    hide IsContent, Indent, MatchKey, Unquote, Trim;
    Next(lines, k);
    step := before;
    if !IsContent(lines[k]) || Indent(lines[k]) != indent { return; }
    var found := MatchKey(Trim(lines[k]));
    if found.None? || !IsStepKey(found.value.key) { return; }
    var value := Trim(found.value.value);
    var continued := ReadContinued(lines, k + 1, indent);
    step := SetKey(step, found.value.key, value, continued);
  }

  method ReadContinued(lines: Lines, first: nat, indent: nat) returns (continued: seq<string>)
    requires first <= |lines|
    ensures continued == Continued(lines[first..], indent)
  {
    hide IsDeeper, IsBlank, Trim, Continued, Reached;
    continued := [];
    var c := first;
    ghost var whole := Continued(lines[first..], indent);
    ReachedStart(whole);
    while c < |lines| && IsDeeper(lines[c], indent)
      invariant first <= c <= |lines|
      invariant Reached(whole, continued, Continued(lines[c..], indent))
    {
      ContinuedStep(lines, c, indent);
      if !IsBlank(lines[c]) {
        ReachedMore(whole, continued, [Trim(lines[c])], Continued(lines[c + 1..], indent));
        continued := continued + [Trim(lines[c])];
      }
      c := c + 1;
    }
    ContinuedEnd(lines, c, indent);
    ReachedEnd(whole, continued, []);
  }

  lemma ContinuedStep(lines: Lines, c: nat, indent: nat)
    requires c < |lines| && IsDeeper(lines[c], indent)
    ensures var rest := Continued(lines[c + 1..], indent);
      Continued(lines[c..], indent) == if IsBlank(lines[c]) then rest else [Trim(lines[c])] + rest
  {
    hide IsDeeper, IsBlank, Trim;
    Next(lines, c);
  }

  lemma ContinuedEnd(lines: Lines, c: nat, indent: nat)
    requires c <= |lines| && (c < |lines| ==> !IsDeeper(lines[c], indent))
    ensures Continued(lines[c..], indent) == []
  {
    hide IsDeeper;
  }
}
