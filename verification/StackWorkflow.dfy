/**
 The stack's own commands under the rules of scripts/check-ci-governance.mjs: no
 command is part of another, and a workflow that runs them as bare steps is
 accepted.
 */
module StackWorkflow {
  import opened Text
  import opened Workflow
  import opened WorkflowRoundTrip
  import opened StackRules

  // -------------------------------------------------- the stack's own commands

  /** What the commands are written with: no line break and no capital, as the
      token has them. */
  predicate IsPlain(c: char) { ' ' <= c <= ':' || 'a' <= c <= 'z' }

  predicate IsPlainLine(t: string) {
    forall c :: c in t ==> IsPlain(c)
  }

  /** A script's name with its arguments: no slash, and no `w` as in `--wait`. */
  predicate IsScriptName(name: string) {
    |name| > 6 && forall c :: c in name ==> c != '/' && c != 'w' && IsPlain(c)
  }

  /** Names that differ in their first or their seventh character. */
  predicate AreUnlike(m: string, n: string) {
    |m| > 6 && |n| > 6 && (m[0] != n[0] || m[6] != n[6])
  }

  /** A part of a command repeats it character by character. */
  lemma IncludedAt(s: string, sub: string) returns (at: nat)
    requires Includes(s, sub)
    ensures at + |sub| <= |s| && forall k :: 0 <= k < |sub| ==> s[at + k] == sub[k]
  {
    at := IndexOf(s, sub, 0);
    var part := s[at..at + |sub|];
    forall k | 0 <= k < |sub| ensures s[at + k] == sub[k] {
      assert part[k] == sub[k];
    }
  }

  lemma PartHas(s: string, sub: string, at: nat, x: char)
    requires at + |sub| <= |s| && (forall k :: 0 <= k < |sub| ==> s[at + k] == sub[k]) && x in sub
    ensures x in s
  {
    var k :| 0 <= k < |sub| && sub[k] == x;
    assert s[at + k] == x;
  }

  lemma CharMissing(s: string, sub: string, x: char)
    requires x in sub && x !in s
    ensures !Includes(s, sub)
  {
    hide Includes;
    if Includes(s, sub) {
      var at := IncludedAt(s, sub);
      PartHas(s, sub, at, x);
    }
  }

  /** Where the one slash of a script command fixes the place. */
  lemma SlashAt(name: string)
    requires IsScriptName(name)
    ensures forall k :: 0 <= k < |Script(name)| ==> (Script(name)[k] == '/' <==> k == 12)
    ensures |Script(name)| > 19 && Script(name)[13] == name[0] && Script(name)[19] == name[6]
    ensures 'w' !in Script(name) && '/' in Script(name)
  {
    var c := Script(name);
    forall k | 13 <= k < |c| ensures c[k] == name[k - 13] && c[k] in name {
    }
    assert c[12] == '/';
  }

  /** One script command in another stands at its start, and begins alike. */
  lemma SlashFixes(m: string, n: string, at: nat)
    requires IsScriptName(m) && IsScriptName(n) && at + |Script(n)| <= |Script(m)|
    requires forall k :: 0 <= k < |Script(n)| ==> Script(m)[at + k] == Script(n)[k]
    ensures m[0] == n[0] && m[6] == n[6]
  {
    hide Script;
    SlashAt(m);
    SlashAt(n);
    assert Script(m)[at + 12] == Script(n)[12] == '/';
    assert Script(m)[at + 13] == Script(n)[13] && Script(m)[at + 19] == Script(n)[19];
  }

  /** Commands of scripts that are unlike are no parts of each other. */
  lemma ScriptsApart(m: string, n: string)
    requires IsScriptName(m) && IsScriptName(n) && AreUnlike(m, n)
    ensures !Includes(Script(m), Script(n))
  {
    hide Includes, Script;
    if Includes(Script(m), Script(n)) {
      var at := IncludedAt(Script(m), Script(n));
      SlashFixes(m, n, at);
    }
  }

  lemma StorageName()
    ensures IsScriptName(STORAGE)
  {
  }

  lemma IdentityName()
    ensures IsScriptName(IDENTITY)
  {
  }

  lemma SmokeName()
    ensures IsScriptName(SMOKE)
  {
  }

  lemma LoadName()
    ensures IsScriptName(LOAD)
  {
  }

  lemma DatabaseName()
    ensures IsScriptName(DATABASE)
  {
    hide IsPlain;
    DatabaseScript();
    assert forall c :: c in DATABASE ==> c in "generate-db-script.mjs" || c in " --check";
  }

  lemma DatabaseScript()
    ensures forall c :: c in "generate-db-script.mjs" ==> c != '/' && c != 'w' && IsPlain(c)
    ensures forall c :: c in " --check" ==> c != '/' && c != 'w' && IsPlain(c)
  {
  }

  lemma LiveName()
    ensures IsScriptName(LIVE)
  {
    hide IsPlain;
    LiveScript();
    assert forall c :: c in LIVE ==> c in "check-observability.mjs" || c in " --live";
  }

  lemma LiveScript()
    ensures forall c :: c in "check-observability.mjs" ==> c != '/' && c != 'w' && IsPlain(c)
    ensures forall c :: c in " --live" ==> c != '/' && c != 'w' && IsPlain(c)
  {
  }

  function Names(): seq<string> { [STORAGE, DATABASE, SMOKE, IDENTITY, LOAD, LIVE] }

  lemma NamesUnlike()
    ensures forall m, n :: m in Names() && n in Names() && m != n ==> AreUnlike(m, n)
  {
    assert STORAGE[0] == 'c' && STORAGE[6] == 's';
    assert IDENTITY[0] == 'c' && IDENTITY[6] == 'i';
    assert LIVE[0] == 'c' && LIVE[6] == 'o';
    assert DATABASE[0] == 'g' && SMOKE[0] == 's' && LOAD[0] == 'l';
  }

  lemma UpAndWaitIs()
    ensures '/' !in UP_AND_WAIT && 'b' !in UP_AND_WAIT && IsPlainLine(UP_AND_WAIT) && |UP_AND_WAIT| == 27 && UP_AND_WAIT[23] == 'w'
  {
    hide IsPlain;
    UpIs();
    assert forall c :: c in UP_AND_WAIT ==> c in "docker compose up" || c in " -d --wait";
  }

  lemma UpIs()
    ensures forall c :: c in "docker compose up" ==> c != '/' && c != 'b' && IsPlain(c)
    ensures forall c :: c in " -d --wait" ==> c != '/' && c != 'b' && IsPlain(c)
  {
  }

  lemma ForcedIs()
    ensures '/' !in FORCED && 'b' !in FORCED && IsPlainLine(FORCED) && |FORCED| == 17 && FORCED[3] == 'f'
  {
  }

  lemma RecreatedIs()
    ensures '/' !in RECREATED && 'b' !in RECREATED && IsPlainLine(RECREATED)
  {
  }

  lemma Joined(a: string, b: string, c: string)
    requires '/' !in a && 'b' !in a && '/' !in b && 'b' !in b && '/' !in c && 'b' !in c
    requires |a| > 23 && a[23] == 'w' && |b| > 3 && b[3] == 'f' && IsPlainLine(a) && IsPlainLine(b) && IsPlainLine(c)
    ensures var all := a + (b + c); '/' !in all && 'b' !in all && 'w' in all && 'f' in all && IsPlainLine(all)
  {
    var all := a + (b + c);
    assert all[23] == 'w' && all[|a| + 3] == 'f';
  }

  lemma RecreateIs()
    ensures '/' !in RECREATE && 'b' !in RECREATE && 'w' in RECREATE && 'f' in RECREATE && IsPlainLine(RECREATE)
  {
    UpAndWaitIs();
    ForcedIs();
    RecreatedIs();
    Joined(UP_AND_WAIT, FORCED, RECREATED);
  }

  lemma ComposeHasNo()
    ensures '/' !in COMPOSE_UP && 'f' !in COMPOSE_UP
  {
  }

  lemma ComposeIsPlain()
    ensures IsPlainLine(COMPOSE_UP)
  {
  }

  lemma ComposeHas()
    ensures 'w' in COMPOSE_UP && 'b' in COMPOSE_UP
  {
    assert COMPOSE_UP[31] == 'w' && COMPOSE_UP[20] == 'b';
  }

  /** A stack command brings the stack up or runs one of the scripts. */
  lemma StackCommandIs(c: string) returns (name: string)
    requires c in STACK_COMMANDS
    ensures c == COMPOSE_UP || c == RECREATE || (name in Names() && c == Script(name))
  {
    hide Script;
    name := if c == Script(STORAGE) then STORAGE else if c == Script(DATABASE) then DATABASE
            else if c == Script(SMOKE) then SMOKE else if c == Script(IDENTITY) then IDENTITY
            else if c == Script(LOAD) then LOAD else LIVE;
  }

  lemma ScriptNamed(name: string)
    requires name in Names()
    ensures IsScriptName(name)
  {
    hide IsScriptName;
    StorageName();
    IdentityName();
    SmokeName();
    LoadName();
    DatabaseName();
    LiveName();
  }

  lemma StackPair(c: string, d: string)
    requires c in STACK_COMMANDS && d in STACK_COMMANDS && c != d
    ensures !Includes(c, d)
  {
    hide Includes, Script, IsScriptName, AreUnlike, Names;
    ComposeHas();
    ComposeHasNo();
    RecreateIs();
    var m := StackCommandIs(c);
    var n := StackCommandIs(d);
    if c != COMPOSE_UP && c != RECREATE {
      ScriptNamed(m);
      SlashAt(m);
    }
    if d != COMPOSE_UP && d != RECREATE {
      ScriptNamed(n);
      SlashAt(n);
    }
    if c == COMPOSE_UP || c == RECREATE {
      CharMissing(c, d, if d == COMPOSE_UP then 'b' else if d == RECREATE then 'f' else '/');
    } else if d == COMPOSE_UP || d == RECREATE {
      CharMissing(c, d, 'w');
    } else {
      NamesUnlike();
      ScriptsApart(m, n);
    }
  }

  /** No stack command is part of another one. */
  lemma StackCommandsApart()
    ensures NoneIncludesAnother(STACK_COMMANDS)
  {
    hide Includes;
    forall c, d | c in STACK_COMMANDS && d in STACK_COMMANDS && c != d ensures !Includes(c, d) {
      StackPair(c, d);
    }
  }

  // --------------------------------------------------- a workflow that passes

  function RunField(command: string): Field { Field("run", Inline(command), [], []) }

  function BareSteps(commands: seq<string>): (steps: seq<Written>)
    ensures |steps| == |commands|
    ensures forall k :: 0 <= k < |steps| ==> steps[k] == [RunField(commands[k])]
  {
    seq(|commands|, k requires 0 <= k < |commands| => [RunField(commands[k])])
  }

  /** The workflow with nothing but the integration job and its stack steps. */
  function BareWorkflow(commands: seq<string>): Lines {
    WorkflowLines([], [], "integration", [], BareSteps(commands), [], 2)
  }

  lemma BareStep(command: string)
    requires IsPlainLine(command)
    ensures IsField(RunField(command), 8, 2)
    ensures StepLines([RunField(command)], 6) == [Spaces(6) + ("- " + ("run" + (": " + ValueText(command))))]
    ensures StepOf([RunField(command)], 0).(index := 0) == Step(0, None, None, Some(command), false, None)
  {
    hide ValueText;
    var f := RunField(command);
    forall k | 0 <= k < |command| ensures !IsLineTerminator(command[k]) {
      assert command[k] in command;
    }
    assert [f][1..] == [];
    OnlyField(f, "name");
    OnlyField(f, "if");
    OnlyField(f, "uses");
    OnlyField(f, "run");
    assert [command] + [] == [command];
  }

  lemma OnlyField(f: Field, key: string)
    ensures LastOf([f], key) == if f.key == key then Some(f) else None
  {
    assert [f][..0] == [];
  }

  /** A line of the job that neither sets a key nor starts a block of its own. */
  predicate IsInnocent(line: string) {
    IsPlainLine(line) && !SetsKey(line, "shell:") && !SetsKey(line, "continue-on-error:") && !IsWordLine(line, "defaults:")
  }

  lemma NotStarted(s: string, prefix: string, k: nat)
    requires k < |s| && k < |prefix| && s[k] != prefix[k]
    ensures !StartsWith(s, prefix)
  {
  }

  lemma RunLineInnocent(command: string)
    requires IsPlainLine(command)
    ensures IsInnocent(Spaces(6) + ("- " + ("run" + (": " + ValueText(command)))))
  {
    hide ValueText, TrimStart, IsBlank, IsPlain;
    ValuePlain(command);
    var text := "run" + (": " + ValueText(command));
    var line := Spaces(6) + ("- " + text);
    TrimStartSpaces(6, "- " + text);
    TrimStartSpaces(1, text);
    assert ("- " + text)[1..] == Spaces(1) + text;
    NotStarted(line, "defaults:", 0);
    NotStarted("- " + text, "shell:", 0);
    NotStarted("- " + text, "continue-on-error:", 0);
    NotStarted(text, "shell:", 0);
    NotStarted(text, "continue-on-error:", 0);
    PlainPieces();
    forall c | c in line ensures IsPlain(c) {
      assert c == ' ' || c == '-' || c in "run" || c in ": " || c in ValueText(command);
    }
  }

  lemma PlainPieces()
    ensures IsPlain(' ') && IsPlain('-') && IsPlain('\'') && IsPlainLine("run") && IsPlainLine(": ")
  {
  }

  lemma ValuePlain(v: string)
    requires IsPlainLine(v)
    ensures IsPlainLine(ValueText(v))
  {
    hide IsPlainValue, IsPlain;
    PlainPieces();
  }

  lemma {:induction false} StepLinesInnocent(steps: seq<Written>, commands: seq<string>)
    requires |steps| == |commands|
    requires forall k :: 0 <= k < |steps| ==> IsPlainLine(commands[k]) && steps[k] == [RunField(commands[k])]
    ensures forall line :: line in AllStepLines(steps, 6) ==> IsInnocent(line)
  {
    hide IsInnocent, StepLines, IsPlainLine;
    if steps == [] {
    } else {
      BareStep(commands[0]);
      RunLineInnocent(commands[0]);
      StepLinesInnocent(steps[1..], commands[1..]);
    }
  }

  /** A line that is one word with a colon, indented or not. */
  lemma WordInnocent(n: nat, word: string)
    requires |word| > 1 && IsPlainLine(word) && !IsSpace(word[0]) && word[0] != '-'
    requires word[0] != 'c' && (word[0] != 's' || word[1] != 'h') && (n == 0 ==> word[0] != 'd')
    ensures IsInnocent(Spaces(n) + word)
  {
    hide TrimStart, IsBlank, IsPlain;
    TrimStartSpaces(n, word);
    var line := Spaces(n) + word;
    NotStarted(line, "defaults:", 0);
    NotStarted(word, "continue-on-error:", 0);
    NotStarted(word, "shell:", if word[0] != 's' then 0 else 1);
    PlainPieces();
    forall c | c in line ensures IsPlain(c) {
      assert c == ' ' || c in word;
    }
  }

  lemma FixedLinesInnocent()
    ensures IsInnocent("jobs:") && IsInnocent(Spaces(2) + ("integration" + ":")) && IsInnocent(Spaces(4) + "steps:")
  {
    hide IsInnocent;
    WordInnocent(0, "jobs:");
    WordInnocent(2, "integration" + ":");
    WordInnocent(4, "steps:");
    assert Spaces(0) + "jobs:" == "jobs:";
  }

  lemma {:induction false} InnocentDefaults(lines: Lines)
    requires forall line :: line in lines ==> IsInnocent(line)
    ensures WorkflowDefaults(lines) == []
  {
    hide IsPlainLine, SetsKey, IsWordLine;
    if lines == [] {
    } else {
      assert IsInnocent(lines[0]);
      InnocentDefaults(lines[1..]);
    }
  }

  lemma TokenIsNotPlain(line: string)
    requires IsPlainLine(line)
    ensures !Includes(line, TOKEN)
  {
    assert TOKEN[0] == 'S';
    CharMissing(line, TOKEN, 'S');
  }

  lemma InnocentLines(lines: Lines)
    requires forall line :: line in lines ==> IsInnocent(line)
    ensures NoLineSets(lines, "shell:") && NoLineSets(lines, "continue-on-error:") && NoToken(lines)
  {
    hide IsPlainLine, SetsKey, IsWordLine, Includes;
    forall k | 0 <= k < |lines| ensures IsInnocent(lines[k]) && !Includes(lines[k], TOKEN) {
      assert lines[k] in lines;
      TokenIsNotPlain(lines[k]);
    }
  }

  /** One bare step for each command and nothing else in the workflow: it is
      accepted when the commands are the stack's. */
  lemma BareWorkflowIsGoverned()
    ensures IsGoverned(BareWorkflow(STACK_COMMANDS))
  {
    hide IsInnocent, IsPlainLine, IsField, IsGoverned, RunsTheStack, NoLineSets, NoToken, WorkflowDefaults, JobBlock,
      ParseSteps, AllStepLines, StepOf;
    var commands := STACK_COMMANDS;
    var written := BareSteps(commands);
    forall k | 0 <= k < |commands| ensures IsPlainLine(commands[k]) && IsField(RunField(commands[k]), 8, 2) {
      StackCommandPlain(commands[k]);
      BareStep(commands[k]);
    }
    StackCommandsApart();
    forall k | 0 <= k < |written| ensures IsBare(StepsOf(written)[k], commands[k]) {
      BareStep(commands[k]);
      IndexAside([RunField(commands[k])], k + 1);
    }
    BareStepsRunTheStack(StepsOf(written), commands);
    StepLinesInnocent(written, commands);
    FixedLinesInnocent();
    BareJob(written);
  }

  /** A step's number is all that its place changes. */
  lemma IndexAside(fields: Written, index: nat)
    ensures StepOf(fields, index) == StepOf(fields, 0).(index := index)
  {
    hide ValueOf, LastOf, IsLong;
  }

  lemma StackCommandPlain(c: string)
    requires c in STACK_COMMANDS
    ensures IsPlainLine(c)
  {
    hide Script, IsPlain;
    ComposeIsPlain();
    RecreateIs();
    var name := StackCommandIs(c);
    if c != COMPOSE_UP && c != RECREATE {
      ScriptNamed(name);
      ScriptPlain(name);
    }
  }

  lemma ScriptPlain(name: string)
    requires IsScriptName(name)
    ensures IsPlainLine(Script(name))
  {
    hide IsPlain;
    NodePlain();
  }

  lemma NodePlain()
    ensures IsPlainLine("node scripts/")
  {
  }

  lemma InnocentBody(steps: seq<Written>)
    requires AreWritten(steps, 6, 2) && forall line :: line in AllStepLines(steps, 6) ==> IsInnocent(line)
    ensures forall line :: line in JobLines([], steps, 4, 6) ==> IsInnocent(line)
  {
    hide IsInnocent, AllStepLines, AreFields, JobLines;
    FixedLinesInnocent();
    LoneJobLines(steps);
  }

  lemma LoneJobLines(steps: seq<Written>)
    requires AreWritten(steps, 6, 2)
    ensures JobLines([], steps, 4, 6) == [Spaces(4) + "steps:"] + AllStepLines(steps, 6)
  {
    hide AllStepLines, AreFields, Spaces, AllFieldLines;
    NoFieldLines();
    var tail := [Spaces(4) + "steps:"] + AllStepLines(steps, 6);
    assert JobLines([], steps, 4, 6) == AllFieldLines([], 4) + tail;
    assert [] + tail == tail;
  }

  lemma NoFieldLines()
    ensures AllFieldLines([], 4) == []
  {
  }

  lemma InnocentWorkflow(steps: seq<Written>)
    requires AreWritten(steps, 6, 2) && forall line :: line in JobLines([], steps, 4, 6) ==> IsInnocent(line)
    ensures forall line :: line in WorkflowLines([], [], "integration", [], steps, [], 2) ==> IsInnocent(line)
  {
    hide IsInnocent, JobLines, AreFields;
    FixedLinesInnocent();
    assert WorkflowLines([], [], "integration", [], steps, [], 2)
        == ["jobs:"] + ([Spaces(2) + ("integration" + ":")] + JobLines([], steps, 4, 6));
  }

  lemma NoKeys()
    ensures AreKeys([], 4, 2)
  {
  }

  /** What it takes for a workflow with this job alone. */
  lemma LoneJobExactly(steps: seq<Written>)
    requires AreWritten(steps, 6, 2)
    ensures var lines := WorkflowLines([], [], "integration", [], steps, [], 2);
      var block := JobLines([], steps, 4, 6);
      IsGoverned(lines) <==>
        "if" !in AddKeys(map[], []) && RunsTheStack(StepsOf(steps), STACK_COMMANDS)
        && NoLineSets(block, "shell:") && NoLineSets(block, "continue-on-error:")
        && NoLineSets(WorkflowDefaults(lines), "shell:") && NoToken(lines)
  {
    hide RunsTheStack, NoLineSets, NoToken, WorkflowDefaults, JobBlock, ParseSteps, AreFields, JobLines, WorkflowLines,
      IsGoverned, AddKeys, StepsOf;
    NoKeys();
    WrittenWorkflowExactly([], [], [], steps, [], 2);
    WorkflowRoundTrips([], [], "integration", [], steps, [], 2);
  }

  /** Such a job is accepted when its lines are innocent. */
  lemma BareJob(steps: seq<Written>)
    requires AreWritten(steps, 6, 2) && RunsTheStack(StepsOf(steps), STACK_COMMANDS)
    requires forall line :: line in AllStepLines(steps, 6) ==> IsInnocent(line)
    ensures IsGoverned(WorkflowLines([], [], "integration", [], steps, [], 2))
  {
    LoneJobExactly(steps);
    hide *;
    InnocentBody(steps);
    InnocentWorkflow(steps);
    InnocentLines(JobLines([], steps, 4, 6));
    InnocentLines(WorkflowLines([], [], "integration", [], steps, [], 2));
    InnocentDefaults(WorkflowLines([], [], "integration", [], steps, [], 2));
    NothingSets();
  }

  lemma NothingSets()
    ensures NoLineSets([], "shell:")
    ensures "if" !in AddKeys(map[], [])
  {
  }
}
