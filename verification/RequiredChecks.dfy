/**
 The rulesets that scripts/apply-required-checks.mjs brings to the versioned
 required checks, repository after repository, and what
 scripts/check-ci-governance.mjs then finds wrong with them.
 */
module RequiredChecks {
  import opened Text

  // ------------------------------------------------------------- the rulesets

  datatype Check = Check(context: string, app: Option<int>)

  /** A rule: what the scripts do not look into is `rest`. */
  datatype Rule = Rule(kind: string, checks: Option<seq<Check>>, rest: string)

  datatype Ruleset = Ruleset(id: int, name: string, target: string, enforcement: string, bypass: string,
                             includes: seq<string>, excludes: seq<string>, rules: seq<Rule>, readOnly: string)

  /** The fields a PUT takes. */
  datatype Body = Body(name: string, target: string, enforcement: string, bypass: string,
                       includes: seq<string>, excludes: seq<string>, rules: seq<Rule>)

  const RULE := "required_status_checks"
  const RULESET_NAME := "protect main"
  const DEFAULT_BRANCH := "~DEFAULT_BRANCH"

  // ---------------------------------------------------------------- labels

  /** `checkLabel`. */
  function Label(c: Check): string {
    c.context + ("@" + if c.app.Some? then IntText(c.app.value) else "-")
  }

  function Labels(checks: seq<Check>): (r: seq<string>)
    ensures |r| == |checks| && forall k :: 0 <= k < |r| ==> r[k] == Label(checks[k])
  {
    seq(|checks|, k requires 0 <= k < |checks| => Label(checks[k]))
  }

  function AppText(app: Option<int>): string {
    if app.Some? then IntText(app.value) else "-"
  }

  lemma AppTextPlain(app: Option<int>)
    ensures '@' !in AppText(app)
  {
    if app.Some? && app.value < 0 {
      assert forall c :: c in IntText(app.value) ==> c == '-' || c in NatText(-app.value);
    }
  }

  lemma AppTextDiffers(a: Option<int>, b: Option<int>)
    requires AppText(a) == AppText(b)
    ensures a == b
  {
    if a.Some? && b.Some? {
      IntTextDiffers(a.value, b.value);
    } else if a.Some? {
      NatNotDash(a.value);
    } else if b.Some? {
      NatNotDash(b.value);
    }
  }

  lemma NatNotDash(n: int)
    ensures IntText(n) != "-"
  {
    if n >= 0 {
      assert IntText(n)[0] in NatText(n);
    }
  }

  /** The `@` after a text is the last one of a label. */
  lemma NoAtBeyond(a: string, s: string)
    requires '@' !in s
    ensures var whole := a + ("@" + s);
      whole[|a|] == '@' && forall i :: |a| < i < |whole| ==> whole[i] != '@'
  {
    var whole := a + ("@" + s);
    forall i | |a| < i < |whole| ensures whole[i] != '@' {
      assert whole[i] == s[i - |a| - 1];
    }
  }

  /** Cut at their last `@`, equal texts have equal halves. */
  lemma LastAt(a: string, b: string, s: string, t: string)
    requires a + ("@" + s) == b + ("@" + t) && '@' !in s && '@' !in t
    ensures a == b && s == t
  {
    NoAtBeyond(a, s);
    NoAtBeyond(b, t);
    var whole := a + ("@" + s);
    assert |a| == |b|;
    assert whole[..|a|] == a && whole[..|a|] == b;
    assert whole[|a| + 1..] == s && whole[|a| + 1..] == t;
  }

  /** Two checks with one label are one check, even with an `@` in a context. */
  lemma LabelDiffers(a: Check, b: Check)
    requires Label(a) == Label(b)
    ensures a == b
  {
    hide IntText;
    AppTextPlain(a.app);
    AppTextPlain(b.app);
    LastAt(a.context, b.context, AppText(a.app), AppText(b.app));
    AppTextDiffers(a.app, b.app);
  }

  lemma LabelIn(c: Check, checks: seq<Check>)
    ensures Label(c) in Labels(checks) <==> c in checks
  {
    hide Label;
    if Label(c) in Labels(checks) {
      var k :| 0 <= k < |checks| && Labels(checks)[k] == Label(c);
      LabelDiffers(c, checks[k]);
    }
    if c in checks {
      var k :| 0 <= k < |checks| && checks[k] == c;
      assert Labels(checks)[k] == Label(c);
    }
  }

  // ------------------------------------------------------------ the changes

  function IndexOfRule(rules: seq<Rule>): (r: Option<nat>)
    ensures r.Some? ==> r.value < |rules| && rules[r.value].kind == RULE
    ensures r.Some? ==> forall k :: 0 <= k < r.value ==> rules[k].kind != RULE
    ensures r.None? ==> forall k :: 0 <= k < |rules| ==> rules[k].kind != RULE
  {
    if rules == [] then None
    else if rules[0].kind == RULE then Some(0)
    else
      var rest := IndexOfRule(rules[1..]);
      if rest.Some? then Some(rest.value + 1) else None
  }

  predicate HasRule(r: Ruleset) {
    exists k :: 0 <= k < |r.rules| && r.rules[k].kind == RULE
  }

  /** The checks of the first rule of the kind. */
  function LiveChecks(r: Ruleset): seq<Check> {
    var at := IndexOfRule(r.rules);
    if at.Some? && r.rules[at.value].checks.Some? then r.rules[at.value].checks.value else []
  }

  function Without(s: seq<string>, t: seq<string>): (r: seq<string>)
    ensures forall x :: x in r <==> x in s && x !in t
  {
    if s == [] then []
    else (if s[0] in t then [] else [s[0]]) + Without(s[1..], t)
  }

  /** `[...new Set(s)]`. */
  function Distinct(s: seq<string>): (r: seq<string>)
    ensures forall x :: x in r <==> x in s
  {
    if s == [] then []
    else
      var n := |s| - 1;
      if s[n] in s[..n] then Distinct(s[..n]) else Distinct(s[..n]) + [s[n]]
  }

  datatype Changes = Changes(add: seq<string>, remove: seq<string>)

  /** `checkChanges`. */
  function CheckChanges(r: Ruleset, checks: seq<Check>): Changes {
    var live, wanted := Labels(LiveChecks(r)), Labels(checks);
    Changes(Without(wanted, live), Without(Distinct(live), wanted))
  }

  predicate IsNothing(c: Changes) { c.add == [] && c.remove == [] }

  /** The ruleset requires these checks and no others. */
  predicate Requires(r: Ruleset, checks: seq<Check>) {
    (forall c :: c in checks ==> c in LiveChecks(r)) && (forall c :: c in LiveChecks(r) ==> c in checks)
  }

  predicate AllDifferent(s: seq<string>) {
    forall j, k :: 0 <= j < k < |s| ==> s[j] != s[k]
  }

  lemma {:induction false} DistinctDiffer(s: seq<string>)
    ensures AllDifferent(Distinct(s))
  {
    if s == [] {
    } else {
      DistinctDiffer(s[..|s| - 1]);
    }
  }

  lemma {:induction false} WithoutDiffer(s: seq<string>, t: seq<string>)
    requires AllDifferent(s)
    ensures AllDifferent(Without(s, t))
  {
    if s == [] {
    } else {
      assert forall j, k :: 0 <= j < k < |s[1..]| ==> s[1..][j] == s[j + 1] && s[1..][k] == s[k + 1];
      WithoutDiffer(s[1..], t);
      if s[0] !in t {
        forall k | 0 <= k < |Without(s[1..], t)| ensures Without(s[1..], t)[k] != s[0] {
          assert Without(s[1..], t)[k] in s[1..];
        }
      }
    }
  }

  /** What is to be added are the wanted checks that are not live, what is to be
      removed the live ones that are not wanted, each named once. */
  lemma ChangesExactly(r: Ruleset, checks: seq<Check>, c: Check)
    ensures var changes := CheckChanges(r, checks);
      (Label(c) in changes.add <==> c in checks && c !in LiveChecks(r))
      && (Label(c) in changes.remove <==> c in LiveChecks(r) && c !in checks)
      && AllDifferent(changes.remove)
      && (forall x :: x in changes.add ==> x in Labels(checks)) && forall x :: x in changes.remove ==> x in Labels(LiveChecks(r))
  {
    hide Label, LiveChecks;
    LabelIn(c, checks);
    LabelIn(c, LiveChecks(r));
    DistinctDiffer(Labels(LiveChecks(r)));
    WithoutDiffer(Distinct(Labels(LiveChecks(r))), Labels(checks));
  }

  lemma MembersOrEmpty(s: seq<string>)
    ensures s == [] || exists x :: x in s
  {
    if s != [] {
      assert s[0] in s;
    }
  }

  /** There is nothing to change exactly when the ruleset requires the checks. */
  lemma NothingToChange(r: Ruleset, checks: seq<Check>)
    ensures IsNothing(CheckChanges(r, checks)) <==> Requires(r, checks)
  {
    hide Label, LiveChecks, Distinct, Without;
    var live, changes := LiveChecks(r), CheckChanges(r, checks);
    MembersOrEmpty(changes.add);
    MembersOrEmpty(changes.remove);
    if IsNothing(changes) {
      forall c: Check | c in checks ensures c in live {
        LabelIn(c, checks);
        LabelIn(c, live);
      }
      forall c: Check | c in live ensures c in checks {
        LabelIn(c, checks);
        LabelIn(c, live);
      }
    } else if Requires(r, checks) {
      SameLabels(live, checks);
    }
  }

  lemma SameLabels(a: seq<Check>, b: seq<Check>)
    requires forall c :: c in a <==> c in b
    ensures forall x :: x in Labels(a) <==> x in Labels(b)
  {
    hide Label;
    forall x | x in Labels(a) ensures x in Labels(b) {
      var k :| 0 <= k < |a| && Labels(a)[k] == x;
      LabelIn(a[k], b);
    }
    forall x | x in Labels(b) ensures x in Labels(a) {
      var k :| 0 <= k < |b| && Labels(b)[k] == x;
      LabelIn(b[k], a);
    }
  }

  // -------------------------------------------------------- the replacement

  function ReplaceIn(rules: seq<Rule>, checks: seq<Check>): (r: seq<Rule>)
    ensures |r| == |rules|
  {
    seq(|rules|, k requires 0 <= k < |rules| =>
      if rules[k].kind == RULE then rules[k].(checks := Some(checks)) else rules[k])
  }

  /** `withRequiredChecks`; none is its error. */
  function WithRequiredChecks(r: Ruleset, checks: seq<Check>): Option<Body> {
    if !HasRule(r) then None
    else Some(Body(r.name, r.target, r.enforcement, r.bypass, r.includes, r.excludes, ReplaceIn(r.rules, checks)))
  }

  /** What a PUT leaves: the writable fields of the body, the rest as it was. */
  function Store(r: Ruleset, b: Body): Ruleset {
    Ruleset(r.id, b.name, b.target, b.enforcement, b.bypass, b.includes, b.excludes, b.rules, r.readOnly)
  }

  /** A ruleset with the lists of required checks blotted out. */
  function Blot(r: Ruleset): Ruleset { r.(rules := ReplaceIn(r.rules, [])) }

  /** Putting the body back gives a ruleset whose every rule of the kind lists
      exactly the checks, in their order, and which is otherwise the one read. */
  lemma ReplacedExactly(r: Ruleset, checks: seq<Check>)
    requires HasRule(r)
    ensures var stored := Store(r, WithRequiredChecks(r, checks).value);
      LiveChecks(stored) == checks && Blot(stored) == Blot(r)
      && (forall k :: 0 <= k < |stored.rules| ==>
            stored.rules[k].kind == r.rules[k].kind
            && if r.rules[k].kind == RULE then stored.rules[k].checks == Some(checks) else stored.rules[k] == r.rules[k])
  {
    var stored := Store(r, WithRequiredChecks(r, checks).value);
    var k :| 0 <= k < |r.rules| && r.rules[k].kind == RULE;
    assert stored.rules[k].kind == RULE;
    assert Blot(stored).rules == Blot(r).rules;
  }

  // ------------------------------------------------------------------ one run

  /** The rulesets named `protect main` of each repository. */
  type World = map<string, seq<Ruleset>>

  datatype Wanted = Wanted(repo: string, checks: seq<Check>)

  datatype Write = Done | Lost | Unacknowledged

  datatype Luck = Luck(fetch: bool, put: Write)

  datatype Line = Already(repo: string) | Would(repo: string, changes: Changes) | Updated(repo: string, changes: Changes)

  datatype Failure = Unread(repo: string) | NotOne(repo: string, found: nat) | PutFailed(repo: string)

  datatype Progress = Progress(world: World, lines: seq<Line>, writes: seq<string>, error: Option<Failure>)

  /** One round of the loop of `run`. */
  function Visit(p: Progress, apply: bool, w: Wanted, l: Luck): Progress {
    if !l.fetch || w.repo !in p.world then p.(error := Some(Unread(w.repo)))
    else if |p.world[w.repo]| != 1 then p.(error := Some(NotOne(w.repo, |p.world[w.repo]|)))
    else
      var r := p.world[w.repo][0];
      var changes := CheckChanges(r, w.checks);
      if IsNothing(changes) then p.(lines := p.lines + [Already(w.repo)])
      else if !apply then p.(lines := p.lines + [Would(w.repo, changes)])
      else
        var body := WithRequiredChecks(r, w.checks);
        if body.None? then p.(error := Some(PutFailed(w.repo)))
        else
          var stored := p.world[w.repo := [Store(r, body.value)]];
          match l.put
          case Done => Progress(stored, p.lines + [Updated(w.repo, changes)], p.writes + [w.repo], None)
          case Lost => p.(writes := p.writes + [w.repo], error := Some(PutFailed(w.repo)))
          case Unacknowledged => Progress(stored, p.lines, p.writes + [w.repo], Some(PutFailed(w.repo)))
  }

  /** The first `n` rounds, or the ones up to the first failure. */
  function Rounds(world: World, apply: bool, wanted: seq<Wanted>, luck: seq<Luck>, n: nat): Progress
    requires n <= |wanted| == |luck|
  {
    if n == 0 then Progress(world, [], [], None)
    else
      var p := Rounds(world, apply, wanted, luck, n - 1);
      if p.error.Some? then p else Visit(p, apply, wanted[n - 1], luck[n - 1])
  }

  function Run(world: World, apply: bool, wanted: seq<Wanted>, luck: seq<Luck>): Progress
    requires |wanted| == |luck|
  {
    Rounds(world, apply, wanted, luck, |wanted|)
  }

  lemma NoRound(world: World, apply: bool, wanted: seq<Wanted>, luck: seq<Luck>)
    requires |wanted| == |luck|
    ensures Rounds(world, apply, wanted, luck, 0) == Progress(world, [], [], None)
  {
  }

  lemma NextRound(world: World, apply: bool, wanted: seq<Wanted>, luck: seq<Luck>, n: nat)
    requires n < |wanted| == |luck|
    ensures var p := Rounds(world, apply, wanted, luck, n);
      Rounds(world, apply, wanted, luck, n + 1) == if p.error.Some? then p else Visit(p, apply, wanted[n], luck[n])
  {
    hide Visit;
  }

  /** The repositories a run writes to. */
  class Repositories {
    var rulesets: World

    method Put(repo: string, r: Ruleset, body: Body, l: Luck) returns (ok: bool)
      modifies this
      ensures ok <==> l.put == Done
      ensures rulesets == if l.put == Lost then old(rulesets) else old(rulesets)[repo := [Store(r, body)]]
    {
      if l.put != Lost { rulesets := rulesets[repo := [Store(r, body)]]; }
      ok := l.put == Done;
    }

    method Apply(apply: bool, wanted: seq<Wanted>, luck: seq<Luck>)
      returns (lines: seq<Line>, writes: seq<string>, error: Option<Failure>)
      requires |wanted| == |luck|
      modifies this
      ensures Progress(rulesets, lines, writes, error) == Run(old(rulesets), apply, wanted, luck)
    {
      hide CheckChanges, WithRequiredChecks, Store, Rounds;
      NoRound(rulesets, apply, wanted, luck);
      lines, writes, error := [], [], None;
      ghost var world := rulesets;
      for n := 0 to |wanted|
        invariant error.None?
        invariant Progress(rulesets, lines, writes, error) == Rounds(world, apply, wanted, luck, n)
      {
        var w, l := wanted[n], luck[n];
        NextRound(world, apply, wanted, luck, n);
        if !l.fetch || w.repo !in rulesets {
          error := Some(Unread(w.repo));
          Stopped(world, apply, wanted, luck, n + 1, |wanted|);
          return;
        }
        var named := rulesets[w.repo];
        if |named| != 1 {
          error := Some(NotOne(w.repo, |named|));
          Stopped(world, apply, wanted, luck, n + 1, |wanted|);
          return;
        }
        var changes := CheckChanges(named[0], w.checks);
        if changes.add == [] && changes.remove == [] {
          lines := lines + [Already(w.repo)];
          continue;
        }
        if !apply {
          lines := lines + [Would(w.repo, changes)];
          continue;
        }
        var body := WithRequiredChecks(named[0], w.checks);
        var ok := false;
        if body.Some? {
          writes := writes + [w.repo];
          ok := Put(w.repo, named[0], body.value, l);
        }
        if !ok {
          error := Some(PutFailed(w.repo));
          Stopped(world, apply, wanted, luck, n + 1, |wanted|);
          return;
        }
        lines := lines + [Updated(w.repo, changes)];
      }
    }
  }

  lemma {:induction false} Stopped(world: World, apply: bool, wanted: seq<Wanted>, luck: seq<Luck>, m: nat, n: nat)
    requires m <= n <= |wanted| == |luck| && Rounds(world, apply, wanted, luck, m).error.Some?
    ensures Rounds(world, apply, wanted, luck, n) == Rounds(world, apply, wanted, luck, m)
    decreases n - m
  {
    hide Visit;
    if m == n {
    } else {
      Stopped(world, apply, wanted, luck, m, n - 1);
    }
  }

  // ------------------------------------------------- what a run leaves behind

  predicate DistinctRepos(wanted: seq<Wanted>) {
    forall i, j :: 0 <= i < j < |wanted| ==> wanted[i].repo != wanted[j].repo
  }

  predicate IsListed(wanted: seq<Wanted>, repo: string) {
    exists k :: 0 <= k < |wanted| && wanted[k].repo == repo
  }

  /** The repository as an applied entry leaves it. */
  predicate IsApplied(before: seq<Ruleset>, after: seq<Ruleset>, checks: seq<Check>) {
    |before| == 1 && |after| == 1
    && Requires(after[0], checks) && Blot(after[0]) == Blot(before[0])
    && (Requires(before[0], checks) ==> after == before)
    && (!Requires(before[0], checks) ==> LiveChecks(after[0]) == checks)
  }

  predicate SameRepo(a: World, b: World, repo: string) {
    (repo in a <==> repo in b) && (repo in a ==> a[repo] == b[repo])
  }

  /** One entry of the list after the first `n` rounds, `done` of which went well. */
  predicate EntryAfter(world: World, p: Progress, w: Wanted, k: nat, n: nat) {
    if k < |p.lines| then
      w.repo in world && w.repo in p.world && IsApplied(world[w.repo], p.world[w.repo], w.checks)
    else if k == |p.lines| && k < n then
      p.error.Some?
      && (SameRepo(world, p.world, w.repo)
          || (w.repo in world && w.repo in p.world && IsApplied(world[w.repo], p.world[w.repo], w.checks)))
    else SameRepo(world, p.world, w.repo)
  }

  /** A round leaves every other repository alone, and its own as it was or
      applied; without a failure it is applied. */
  lemma VisitApplies(p: Progress, w: Wanted, l: Luck)
    requires p.error.None?
    ensures var q := Visit(p, true, w, l);
      (forall repo :: repo != w.repo ==> SameRepo(p.world, q.world, repo))
      && |q.lines| == |p.lines| + (if q.error.None? then 1 else 0)
      && (q.error.None? ==> w.repo in p.world && w.repo in q.world && IsApplied(p.world[w.repo], q.world[w.repo], w.checks))
      && (SameRepo(p.world, q.world, w.repo)
          || (w.repo in p.world && w.repo in q.world && IsApplied(p.world[w.repo], q.world[w.repo], w.checks)))
  {
    hide CheckChanges, LiveChecks, HasRule, ReplaceIn;
    if l.fetch && w.repo in p.world && |p.world[w.repo]| == 1 {
      var r := p.world[w.repo][0];
      NothingToChange(r, w.checks);
      if WithRequiredChecks(r, w.checks).Some? {
        ReplacedExactly(r, w.checks);
      }
    }
  }

  lemma EntryStep(world: World, p: Progress, wanted: seq<Wanted>, l: Luck, k: nat, n: nat)
    requires 0 < n <= |wanted| && k < |wanted| && DistinctRepos(wanted)
    requires p.error.None? && |p.lines| == n - 1 && EntryAfter(world, p, wanted[k], k, n - 1)
    ensures EntryAfter(world, Visit(p, true, wanted[n - 1], l), wanted[k], k, n)
  {
    hide Visit, IsApplied;
    VisitApplies(p, wanted[n - 1], l);
    if k != n - 1 {
      assert wanted[k].repo != wanted[n - 1].repo;
      assert SameRepo(p.world, Visit(p, true, wanted[n - 1], l).world, wanted[k].repo);
    }
  }

  /** In every run, whatever fails: the repositories before the failure require
      exactly their checks, at most the one that failed is changed besides, and
      the later ones and all others are untouched. */
  lemma {:induction false} StopsOnTheFirstFailure(world: World, wanted: seq<Wanted>, luck: seq<Luck>, n: nat)
    requires n <= |wanted| == |luck| && DistinctRepos(wanted)
    ensures var p := Rounds(world, true, wanted, luck, n);
      && (if p.error.None? then |p.lines| == n else |p.lines| < n)
      && (forall k :: 0 <= k < |wanted| ==> EntryAfter(world, p, wanted[k], k, n))
      && (forall repo :: !IsListed(wanted, repo) ==> SameRepo(world, p.world, repo))
  {
    hide Visit, IsApplied;
    if n == 0 {
    } else {
      StopsOnTheFirstFailure(world, wanted, luck, n - 1);
      var p := Rounds(world, true, wanted, luck, n - 1);
      if p.error.None? {
        VisitApplies(p, wanted[n - 1], luck[n - 1]);
        forall k: nat | k < |wanted|
          ensures EntryAfter(world, Visit(p, true, wanted[n - 1], luck[n - 1]), wanted[k], k, n)
        {
          EntryStep(world, p, wanted, luck[n - 1], k, n);
        }
        forall repo | !IsListed(wanted, repo)
          ensures SameRepo(world, Visit(p, true, wanted[n - 1], luck[n - 1]).world, repo)
        {
          assert wanted[n - 1].repo != repo && SameRepo(world, p.world, repo);
          assert SameRepo(p.world, Visit(p, true, wanted[n - 1], luck[n - 1]).world, repo);
        }
      }
    }
  }

  predicate AllRequired(world: World, wanted: seq<Wanted>) {
    forall k :: 0 <= k < |wanted| ==>
      wanted[k].repo in world && |world[wanted[k].repo]| == 1 && Requires(world[wanted[k].repo][0], wanted[k].checks)
  }

  /** A run without an error leaves every repository with exactly its checks. */
  lemma SuccessRequiresAll(world: World, wanted: seq<Wanted>, luck: seq<Luck>)
    requires |wanted| == |luck| && DistinctRepos(wanted) && Run(world, true, wanted, luck).error.None?
    ensures AllRequired(Run(world, true, wanted, luck).world, wanted)
  {
    hide Rounds, Requires, Blot, LiveChecks;
    StopsOnTheFirstFailure(world, wanted, luck, |wanted|);
    var p := Run(world, true, wanted, luck);
    forall k | 0 <= k < |wanted|
      ensures wanted[k].repo in p.world && |p.world[wanted[k].repo]| == 1
        && Requires(p.world[wanted[k].repo][0], wanted[k].checks)
    {
      assert EntryAfter(world, p, wanted[k], k, |wanted|);
    }
  }

  // ---------------------------------------------------------- run after run

  predicate AllFetched(luck: seq<Luck>) {
    forall k :: 0 <= k < |luck| ==> luck[k].fetch
  }

  /** How many of the first `n` reads come before one that fails. */
  function Fetched(luck: seq<Luck>, n: nat): (m: nat)
    requires n <= |luck|
    ensures m <= n && (forall k :: 0 <= k < m ==> luck[k].fetch) && (m < n ==> !luck[m].fetch)
  {
    if n == 0 then 0
    else
      var m := Fetched(luck, n - 1);
      if m == n - 1 && luck[n - 1].fetch then n else m
  }

  function AllAlready(wanted: seq<Wanted>): (lines: seq<Line>)
    ensures |lines| == |wanted|
  {
    seq(|wanted|, k requires 0 <= k < |wanted| => Already(wanted[k].repo))
  }

  lemma NothingToWrite(p: Progress, w: Wanted, l: Luck)
    requires w.repo in p.world && |p.world[w.repo]| == 1 && Requires(p.world[w.repo][0], w.checks)
    ensures Visit(p, true, w, l)
         == if l.fetch then p.(lines := p.lines + [Already(w.repo)]) else p.(error := Some(Unread(w.repo)))
  {
    hide CheckChanges, Requires;
    NothingToChange(p.world[w.repo][0], w.checks);
  }

  /** Where every repository already has its checks, a run writes nothing,
      whatever fails: it says so of each, up to the first read that fails. */
  lemma {:induction false} NothingLeftToWrite(world: World, wanted: seq<Wanted>, luck: seq<Luck>, n: nat)
    requires n <= |wanted| == |luck| && AllRequired(world, wanted)
    ensures var m := Fetched(luck, n);
      Rounds(world, true, wanted, luck, n)
      == Progress(world, AllAlready(wanted[..m]), [], if m == n then None else Some(Unread(wanted[m].repo)))
  {
    hide Visit, Requires;
    if n == 0 {
    } else {
      NothingLeftToWrite(world, wanted, luck, n - 1);
      var p := Rounds(world, true, wanted, luck, n - 1);
      if p.error.None? {
        NothingToWrite(p, wanted[n - 1], luck[n - 1]);
      }
      assert AllAlready(wanted[..n]) == AllAlready(wanted[..n - 1]) + [Already(wanted[n - 1].repo)];
    }
  }

  /** A second run after one that ended without an error writes nothing, whatever
      fails in it, and it ends without an error exactly when every read succeeds. */
  lemma SecondRunWritesNothing(world: World, wanted: seq<Wanted>, luck: seq<Luck>, again: seq<Luck>)
    requires |wanted| == |luck| == |again| && DistinctRepos(wanted)
    requires Run(world, true, wanted, luck).error.None?
    ensures var first := Run(world, true, wanted, luck);
      var second := Run(first.world, true, wanted, again);
      second.world == first.world && second.writes == [] && (second.error.None? <==> AllFetched(again))
  {
    hide Rounds, AllRequired;
    SuccessRequiresAll(world, wanted, luck);
    NothingLeftToWrite(Run(world, true, wanted, luck).world, wanted, again, |wanted|);
  }

  /** A repository a run can bring to its checks. */
  predicate IsFixable(world: World, w: Wanted) {
    w.repo in world && |world[w.repo]| == 1
    && (HasRule(world[w.repo][0]) || Requires(world[w.repo][0], w.checks))
  }

  predicate AllFixable(world: World, wanted: seq<Wanted>) {
    forall k :: 0 <= k < |wanted| ==> IsFixable(world, wanted[k])
  }

  predicate IsClean(luck: seq<Luck>) {
    forall k :: 0 <= k < |luck| ==> luck[k].fetch && luck[k].put == Done
  }

  lemma BlotKeepsRule(a: Ruleset, b: Ruleset)
    requires Blot(a) == Blot(b)
    ensures HasRule(a) == HasRule(b)
  {
    assert |a.rules| == |b.rules|;
    forall k | 0 <= k < |a.rules| ensures a.rules[k].kind == b.rules[k].kind {
      assert Blot(a).rules[k].kind == Blot(b).rules[k].kind;
    }
  }

  /** Without a rule of the kind nothing is live. */
  lemma FixableEither(before: seq<Ruleset>, after: seq<Ruleset>, checks: seq<Check>)
    requires IsApplied(before, after, checks)
    ensures HasRule(before[0]) || Requires(before[0], checks)
  {
    if !HasRule(before[0]) {
      BlotKeepsRule(before[0], after[0]);
      assert LiveChecks(before[0]) == [] && LiveChecks(after[0]) == [];
    }
  }

  /** No run, whatever fails in it, changes which repositories can be fixed. */
  lemma RunKeepsFixable(world: World, wanted: seq<Wanted>, luck: seq<Luck>, k: nat)
    requires k < |wanted| == |luck| && DistinctRepos(wanted)
    ensures IsFixable(Run(world, true, wanted, luck).world, wanted[k]) <==> IsFixable(world, wanted[k])
  {
    hide Rounds, Requires, Blot, LiveChecks, HasRule;
    StopsOnTheFirstFailure(world, wanted, luck, |wanted|);
    var p := Run(world, true, wanted, luck);
    assert EntryAfter(world, p, wanted[k], k, |wanted|);
    if !SameRepo(world, p.world, wanted[k].repo) {
      FixableEither(world[wanted[k].repo], p.world[wanted[k].repo], wanted[k].checks);
    }
  }

  function RunAll(world: World, wanted: seq<Wanted>, runs: seq<seq<Luck>>): World
    requires forall k :: 0 <= k < |runs| ==> |runs[k]| == |wanted|
  {
    if runs == [] then world
    else Run(RunAll(world, wanted, runs[..|runs| - 1]), true, wanted, runs[|runs| - 1]).world
  }

  lemma {:induction false} RunsKeepFixable(world: World, wanted: seq<Wanted>, runs: seq<seq<Luck>>)
    requires (forall k :: 0 <= k < |runs| ==> |runs[k]| == |wanted|) && DistinctRepos(wanted)
    ensures AllFixable(RunAll(world, wanted, runs), wanted) <==> AllFixable(world, wanted)
    decreases |runs|
  {
    hide Run, IsFixable;
    if runs == [] {
    } else {
      var before := runs[..|runs| - 1];
      RunsKeepFixable(world, wanted, before);
      forall k: nat | k < |wanted|
        ensures IsFixable(RunAll(world, wanted, runs), wanted[k]) <==> IsFixable(RunAll(world, wanted, before), wanted[k])
      {
        RunKeepsFixable(RunAll(world, wanted, before), wanted, runs[|runs| - 1], k);
      }
    }
  }

  lemma VisitExact(p: Progress, w: Wanted, l: Luck)
    requires p.error.None? && l.fetch && l.put == Done
    ensures Visit(p, true, w, l).error.None? <==> IsFixable(p.world, w)
  {
    hide CheckChanges, HasRule, Requires, ReplaceIn, Store;
    if w.repo in p.world && |p.world[w.repo]| == 1 {
      NothingToChange(p.world[w.repo][0], w.checks);
    }
  }

  /** A run in which nothing fails ends without an error exactly when every
      repository can be fixed. */
  lemma {:induction false} CleanRunExact(world: World, wanted: seq<Wanted>, luck: seq<Luck>, n: nat)
    requires n <= |wanted| == |luck| && DistinctRepos(wanted) && IsClean(luck)
    ensures Rounds(world, true, wanted, luck, n).error.None? <==> forall k :: 0 <= k < n ==> IsFixable(world, wanted[k])
  {
    hide Visit, HasRule, Requires, IsApplied;
    if n == 0 {
    } else {
      CleanRunExact(world, wanted, luck, n - 1);
      StopsOnTheFirstFailure(world, wanted, luck, n - 1);
      var p, w := Rounds(world, true, wanted, luck, n - 1), wanted[n - 1];
      if p.error.None? {
        assert EntryAfter(world, p, w, n - 1, n - 1);
        VisitExact(p, w, luck[n - 1]);
      }
    }
  }

  /** Repeated runs converge: after any runs, failing anywhere, the first one in
      which nothing fails ends without an error exactly when every repository
      could be fixed from the start, and then all require exactly their checks. */
  lemma RunsConverge(world: World, wanted: seq<Wanted>, runs: seq<seq<Luck>>, luck: seq<Luck>)
    requires (forall k :: 0 <= k < |runs| ==> |runs[k]| == |wanted|) && |luck| == |wanted|
    requires DistinctRepos(wanted) && IsClean(luck)
    ensures var last := Run(RunAll(world, wanted, runs), true, wanted, luck);
      (last.error.None? <==> AllFixable(world, wanted)) && (last.error.None? ==> AllRequired(last.world, wanted))
  {
    hide Rounds, RunAll, IsFixable, AllRequired;
    RunsKeepFixable(world, wanted, runs);
    CleanRunExact(RunAll(world, wanted, runs), wanted, luck, |wanted|);
    if Run(RunAll(world, wanted, runs), true, wanted, luck).error.None? {
      SuccessRequiresAll(RunAll(world, wanted, runs), wanted, luck);
    }
  }

  // ------------------------------------------------------------ the dry run

  function AsApplied(line: Line): Line {
    if line.Would? then Updated(line.repo, line.changes) else line
  }

  function AllAsApplied(lines: seq<Line>): (r: seq<Line>)
    ensures |r| == |lines|
  {
    seq(|lines|, k requires 0 <= k < |lines| => AsApplied(lines[k]))
  }

  /** A dry run changes nothing and foretells the run: where all can be fixed,
      the changes it prints are those that an applied run then makes. */
  lemma {:induction false} DryRunForetells(world: World, wanted: seq<Wanted>, luck: seq<Luck>, n: nat)
    requires n <= |wanted| == |luck| && DistinctRepos(wanted) && IsClean(luck) && AllFixable(world, wanted)
    ensures var dry := Rounds(world, false, wanted, luck, n);
      var applied := Rounds(world, true, wanted, luck, n);
      dry.world == world && dry.writes == [] && dry.error.None? && applied.error.None?
      && applied.lines == AllAsApplied(dry.lines)
  {
    hide Visit, Requires, HasRule, IsApplied;
    if n == 0 {
    } else {
      DryRunForetells(world, wanted, luck, n - 1);
      StopsOnTheFirstFailure(world, wanted, luck, n - 1);
      CleanRunExact(world, wanted, luck, n);
      var dry, applied := Rounds(world, false, wanted, luck, n - 1), Rounds(world, true, wanted, luck, n - 1);
      var w := wanted[n - 1];
      assert EntryAfter(world, applied, w, n - 1, n - 1);
      assert IsFixable(world, w);
      DryRound(dry, applied, w, luck[n - 1]);
    }
  }

  lemma DryRound(dry: Progress, applied: Progress, w: Wanted, l: Luck)
    requires dry.error.None? && applied.error.None? && applied.lines == AllAsApplied(dry.lines) && l.fetch && l.put == Done
    requires w.repo in dry.world && |dry.world[w.repo]| == 1 && SameRepo(dry.world, applied.world, w.repo)
    requires Visit(applied, true, w, l).error.None?
    ensures var d, r := Visit(dry, false, w, l), Visit(applied, true, w, l);
      d.world == dry.world && d.writes == dry.writes && d.error.None? && r.lines == AllAsApplied(d.lines)
  {
    hide CheckChanges, HasRule, Store;
  }

  // -------------------------------------------------- what governance reports

  datatype Problem = NoRuleset | Rulesets(found: nat) | Inactive | Mistargeted | Different(missing: seq<string>, unexpected: seq<string>)

  function OfThatName(rulesets: seq<Ruleset>): seq<Ruleset> {
    if rulesets == [] then []
    else (if rulesets[0].name == RULESET_NAME then [rulesets[0]] else []) + OfThatName(rulesets[1..])
  }

  predicate HitsDefaultBranch(r: Ruleset) {
    r.target == "branch" && r.includes == [DEFAULT_BRANCH] && r.excludes == []
  }

  /** `rulesetProblems`. */
  function RulesetProblems(checks: seq<Check>, rulesets: seq<Ruleset>): seq<Problem> {
    var named := OfThatName(rulesets);
    if |named| == 0 then [NoRuleset]
    else if |named| > 1 then [Rulesets(|named|)]
    else
      var r := named[0];
      var live, wanted := Labels(LiveChecks(r)), Labels(checks);
      var missing, unexpected := Without(wanted, live), Without(Distinct(live), wanted);
      (if r.enforcement != "active" then [Inactive] else [])
      + (if !HitsDefaultBranch(r) then [Mistargeted] else [])
      + (if missing != [] || unexpected != [] then [Different(missing, unexpected)] else [])
  }

  predicate ReportsDifference(problems: seq<Problem>) {
    exists k :: 0 <= k < |problems| && problems[k].Different?
  }

  /** Each problem is reported exactly of what it says: the number of rulesets of the
      name when that is not one, and of the one what is wrong with it, its missing and
      unexpected checks by their labels. */
  lemma ProblemsExactly(checks: seq<Check>, rulesets: seq<Ruleset>, p: Problem)
    ensures var named := OfThatName(rulesets);
      p in RulesetProblems(checks, rulesets) <==>
      match p
      case NoRuleset => |named| == 0
      case Rulesets(found) => |named| > 1 && found == |named|
      case Inactive => |named| == 1 && named[0].enforcement != "active"
      case Mistargeted =>
        |named| == 1
        && !(named[0].target == "branch" && named[0].includes == ["~DEFAULT_BRANCH"] && named[0].excludes == [])
      case Different(missing, unexpected) =>
        |named| == 1 && !Requires(named[0], checks) && Changes(missing, unexpected) == CheckChanges(named[0], checks)
  {
    hide LiveChecks, Labels, OfThatName, Requires;
    if |OfThatName(rulesets)| == 1 {
      NothingToChange(OfThatName(rulesets)[0], checks);
    }
  }

  lemma {:induction false} OfThatNameAre(rulesets: seq<Ruleset>, r: Ruleset)
    ensures r in OfThatName(rulesets) <==> r in rulesets && r.name == "protect main"
  {
    if rulesets == [] {
    } else {
      OfThatNameAre(rulesets[1..], r);
    }
  }

  /** Nothing is reported exactly of one ruleset of the name that is active on
      the default branch alone and requires exactly the checks. */
  lemma NoProblemsExactly(checks: seq<Check>, rulesets: seq<Ruleset>)
    ensures RulesetProblems(checks, rulesets) == [] <==>
      |OfThatName(rulesets)| == 1 && OfThatName(rulesets)[0].enforcement == "active"
      && HitsDefaultBranch(OfThatName(rulesets)[0]) && Requires(OfThatName(rulesets)[0], checks)
  {
    hide LiveChecks, Labels, OfThatName, HitsDefaultBranch;
    if |OfThatName(rulesets)| == 1 {
      NothingToChange(OfThatName(rulesets)[0], checks);
    }
  }

  /** After a run without an error governance reports no missing and no unexpected
      check of any repository whose ruleset carries the name. */
  lemma NoDifferenceAfterSuccess(world: World, wanted: seq<Wanted>, luck: seq<Luck>, k: nat)
    requires k < |wanted| == |luck| && DistinctRepos(wanted) && Run(world, true, wanted, luck).error.None?
    ensures var after := Run(world, true, wanted, luck).world;
      wanted[k].repo in after && !ReportsDifference(RulesetProblems(wanted[k].checks, after[wanted[k].repo]))
  {
    hide Rounds, LiveChecks, Labels, Requires;
    SuccessRequiresAll(world, wanted, luck);
    var rulesets := Run(world, true, wanted, luck).world[wanted[k].repo];
    NothingToChange(rulesets[0], wanted[k].checks);
    assert OfThatName(rulesets) == (if rulesets[0].name == RULESET_NAME then rulesets else []) by {
      assert rulesets[1..] == [] && rulesets == [rulesets[0]];
    }
    assert IsNothing(CheckChanges(rulesets[0], wanted[k].checks));
  }

  // ------------------------------------------------- a second rule of the kind

  /** Every rule of the kind lists exactly the checks. */
  predicate RequiresThroughout(r: Ruleset, checks: seq<Check>) {
    forall k :: 0 <= k < |r.rules| && r.rules[k].kind == RULE ==>
      r.rules[k].checks.Some?
      && (forall c :: c in checks ==> c in r.rules[k].checks.value)
      && (forall c :: c in r.rules[k].checks.value ==> c in checks)
  }

  /** Only the first rule of the kind is judged, while all are replaced: after a
      round that ends well every such rule holds the checks exactly when the first
      one did not hold them before, or all of them did. */
  lemma ThroughoutExactly(p: Progress, w: Wanted, l: Luck)
    requires p.error.None? && Visit(p, true, w, l).error.None?
    ensures w.repo in p.world && |p.world[w.repo]| == 1
    ensures RequiresThroughout(Visit(p, true, w, l).world[w.repo][0], w.checks) <==>
      (!Requires(p.world[w.repo][0], w.checks) || RequiresThroughout(p.world[w.repo][0], w.checks))
  {
    hide CheckChanges, LiveChecks;
    var r := p.world[w.repo][0];
    NothingToChange(r, w.checks);
    if !Requires(r, w.checks) {
      ReplacedExactly(r, w.checks);
    }
  }

  /** The same of every repository of a run: after one that ends without an error
      a second rule keeps other checks exactly where the first one was right and
      some rule was not. */
  lemma {:induction false} RunThroughoutExactly(world: World, wanted: seq<Wanted>, luck: seq<Luck>, k: nat, n: nat)
    requires k < n <= |wanted| == |luck| && DistinctRepos(wanted)
    requires Rounds(world, true, wanted, luck, n).error.None?
    ensures var repo, checks, after := wanted[k].repo, wanted[k].checks, Rounds(world, true, wanted, luck, n).world;
      repo in world && |world[repo]| == 1 && repo in after && |after[repo]| == 1
      && (!RequiresThroughout(after[repo][0], checks)
          <==> Requires(world[repo][0], checks) && !RequiresThroughout(world[repo][0], checks))
  {
    hide Visit, Requires, RequiresThroughout, IsApplied;
    var p, w := Rounds(world, true, wanted, luck, n - 1), wanted[n - 1];
    VisitApplies(p, w, luck[n - 1]);
    if k == n - 1 {
      StopsOnTheFirstFailure(world, wanted, luck, n - 1);
      assert EntryAfter(world, p, w, n - 1, n - 1);
      ThroughoutExactly(p, w, luck[n - 1]);
      AppliedIsOne(p.world[w.repo], Visit(p, true, w, luck[n - 1]).world[w.repo], w.checks);
    } else {
      RunThroughoutExactly(world, wanted, luck, k, n - 1);
      assert wanted[k].repo != w.repo;
      assert SameRepo(p.world, Visit(p, true, w, luck[n - 1]).world, wanted[k].repo);
    }
  }

  lemma AppliedIsOne(before: seq<Ruleset>, after: seq<Ruleset>, checks: seq<Check>)
    requires IsApplied(before, after, checks)
    ensures |before| == 1 && |after| == 1
  {
  }

  /** A second rule with another check survives a run that reports all is well. */
  lemma SecondRuleSurvives()
    ensures var c, d := Check("quality", Some(15368)), Check("lint", None);
      var rules := [Rule(RULE, Some([c]), ""), Rule(RULE, Some([d]), "")];
      var r := Ruleset(7, RULESET_NAME, "branch", "active", "", [DEFAULT_BRANCH], [], rules, "");
      var p := Visit(Progress(map["o/worker" := [r]], [], [], None), true, Wanted("o/worker", [c]), Luck(true, Done));
      p.lines == [Already("o/worker")] && p.world["o/worker"] == [r] && !RequiresThroughout(r, [c])
  {
    hide Labels, Label, Distinct, Without;
    var c, d := Check("quality", Some(15368)), Check("lint", None);
    var rules := [Rule(RULE, Some([c]), ""), Rule(RULE, Some([d]), "")];
    var r := Ruleset(7, RULESET_NAME, "branch", "active", "", [DEFAULT_BRANCH], [], rules, "");
    assert LiveChecks(r) == [c];
    NothingToChange(r, [c]);
    assert rules[1].kind == RULE && d in rules[1].checks.value && d !in [c];
  }
}
