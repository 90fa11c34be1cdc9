/**
 The bucket reconciler of storage/bootstrap.sh, which runs on every start. Any
 of its calls may fail; `set -e` ends the run where a failing call is a command
 or an assignment of its own, and not where it stands inside a test.
 */
module Bootstrap {
  import opened Text

  // ------------------------------------------------------------- the bucket

  /** A lifecycle rule: the fields the queries look at, and the rest of it. */
  datatype Rule = Rule(id: Option<string>, status: string, prefix: Option<string>, expiration: Option<Expiration>,
                       abort: Option<int>, transitions: bool, noncurrent: bool, rest: string)

  datatype Expiration = Expiration(days: Option<int>)

  datatype State = State(present: bool, policy: Option<string>, lifecycle: Option<seq<Rule>>)

  const SOURCES := "expire-sources"
  const ZIPS := "expire-zips"
  const ABORT := "abort-incomplete-uploads"

  /** The configuration the run writes. */
  const DESIRED: seq<Rule> := [
    Rule(Some(SOURCES), "Enabled", Some("sources/"), Some(Expiration(Some(7))), None, false, false, ""),
    Rule(Some(ZIPS), "Enabled", Some("zips/"), Some(Expiration(Some(7))), None, false, false, ""),
    Rule(Some(ABORT), "Enabled", Some(""), None, Some(1), false, false, "")]

  predicate IsOurs(r: Rule) {
    r.id == Some(SOURCES) || r.id == Some(ZIPS) || r.id == Some(ABORT)
  }

  /** The filter of `correct`. */
  predicate Expires(r: Rule, id: string, prefix: string) {
    r.id == Some(id) && r.status == "Enabled" && r.prefix == Some(prefix)
    && r.expiration.Some? && r.expiration.value.days == Some(7)
    && r.abort.None? && !r.transitions && !r.noncurrent
  }

  /** The filter of `abort_correct`. */
  predicate Aborts(r: Rule) {
    r.id == Some(ABORT) && r.status == "Enabled" && r.prefix == Some("") && r.abort == Some(1)
    && r.expiration.None? && !r.transitions && !r.noncurrent
  }

  function Count(rules: seq<Rule>, wanted: Rule -> bool): nat {
    if rules == [] then 0 else (if wanted(rules[0]) then 1 else 0) + Count(rules[1..], wanted)
  }

  function Ours(rules: seq<Rule>): nat { Count(rules, r => IsOurs(r)) }

  function CorrectSources(rules: seq<Rule>): nat { Count(rules, r => Expires(r, SOURCES, "sources/")) }

  function CorrectZips(rules: seq<Rule>): nat { Count(rules, r => Expires(r, ZIPS, "zips/")) }

  function CorrectAborts(rules: seq<Rule>): nat { Count(rules, r => Aborts(r)) }

  function Rules(s: State): seq<Rule> {
    if s.lifecycle.Some? then s.lifecycle.value else []
  }

  // ------------------------------------------------------------ one run's luck

  /** A write is done, or fails before it changes anything, or is applied and
      then reported as failed. */
  datatype Write = Done | Lost | Unacknowledged

  /** Which reads are answered, and truthfully; a read that is not answered fails
      with some other error. Named after the calls, in their order. */
  datatype Luck = Luck(head: bool, create: Write, policy: bool, total: bool, owned: bool,
                       sources: bool, zips: bool, abort: bool, put: Write,
                       totalBack: bool, sourcesBack: bool, zipsBack: bool, abortBack: bool)

  predicate IsClean(l: Luck) {
    l.head && l.create.Done? && l.policy && l.total && l.owned && l.sources && l.zips && l.abort && l.put.Done?
    && l.totalBack && l.sourcesBack && l.zipsBack && l.abortBack
  }

  datatype Outcome = Outcome(state: State, ok: bool, put: bool)

  // ----------------------------------------------------------- the whole run

  function Created(s: State): State {
    if s.present then s else State(true, None, None)
  }

  /** The test in front of the put; a read that fails counts as a wrong answer. */
  predicate AlreadyConfigured(rules: seq<Rule>, l: Luck) {
    |rules| == 3
    && l.sources && CorrectSources(rules) == 1
    && l.zips && CorrectZips(rules) == 1
    && l.abort && CorrectAborts(rules) == 1
  }

  predicate ReadsBack(s: State, l: Luck) {
    l.totalBack && s.lifecycle.Some? && |s.lifecycle.value| == 3
    && l.sourcesBack && CorrectSources(s.lifecycle.value) == 1
    && l.zipsBack && CorrectZips(s.lifecycle.value) == 1
    && l.abortBack && CorrectAborts(s.lifecycle.value) == 1
  }

  function Retain(s: State, l: Luck): Outcome {
    if !l.total then Outcome(s, false, false)
    else if Rules(s) != [] && (!l.owned || Ours(Rules(s)) != |Rules(s)|) then Outcome(s, false, false)
    else if AlreadyConfigured(Rules(s), l) then Outcome(s, ReadsBack(s, l), false)
    else
      var written := s.(lifecycle := Some(DESIRED));
      match l.put
      case Done => Outcome(written, ReadsBack(written, l), true)
      case Lost => Outcome(s, false, true)
      case Unacknowledged => Outcome(written, false, true)
  }

  function Reconcile(s: State, l: Luck): Outcome {
    if s.present && l.head then
      if !l.policy || s.policy.Some? then Outcome(s, false, false) else Retain(s, l)
    else if l.create != Done then Outcome(if l.create == Lost then s else Created(s), false, false)
    else
      if !l.policy || Created(s).policy.Some? then Outcome(Created(s), false, false) else Retain(Created(s), l)
  }

  /** The script itself, on the bucket it changes. */
  class Bucket {
    var present: bool
    var policy: Option<string>
    var lifecycle: Option<seq<Rule>>

    ghost function Now(): State
      reads this
    {
      State(present, policy, lifecycle)
    }

    /** `aws s3api create-bucket`. */
    method Create(l: Luck) returns (ok: bool)
      modifies this
      ensures ok <==> l.create == Done
      ensures Now() == if l.create == Lost then old(Now()) else Created(old(Now()))
    {
      if l.create != Lost && !present { present, policy, lifecycle := true, None, None; }
      ok := l.create == Done;
    }

    /** `aws s3api put-bucket-lifecycle-configuration`. */
    method Put(l: Luck) returns (ok: bool)
      modifies this`lifecycle
      ensures ok <==> l.put == Done
      ensures lifecycle == if l.put == Lost then old(lifecycle) else Some(DESIRED)
    {
      if l.put != Lost { lifecycle := Some(DESIRED); }
      ok := l.put == Done;
    }

    method ConfigureRetention(l: Luck) returns (ok: bool, put: bool)
      modifies this`lifecycle
      ensures Outcome(Now(), ok, put) == Retain(old(Now()), l)
    {
      hide CorrectSources, CorrectZips, CorrectAborts, Ours;
      put := false;
      if !l.total { return false, put; }
      var rules := if lifecycle.Some? then lifecycle.value else [];
      var total := |rules|;
      if total != 0 {
        if !l.owned { return false, put; }
        if Ours(rules) != total { return false, put; }
      }
      if !(total == 3 && l.sources && CorrectSources(rules) == 1 && l.zips && CorrectZips(rules) == 1
           && l.abort && CorrectAborts(rules) == 1)
      {
        put := true;
        var written := Put(l);
        if !written { return false, put; }
      }
      if !l.totalBack || lifecycle.None? { return false, put; }
      rules := lifecycle.value;
      ok := !(|rules| != 3 || !l.sourcesBack || CorrectSources(rules) != 1 || !l.zipsBack || CorrectZips(rules) != 1
              || !l.abortBack || CorrectAborts(rules) != 1);
    }

    method Start(l: Luck) returns (ok: bool, put: bool)
      modifies this
      ensures Outcome(Now(), ok, put) == Reconcile(old(Now()), l)
    {
      hide Retain;
      put := false;
      if !(present && l.head) {
        var created := Create(l);
        if !created { return false, put; }
      }
      if !l.policy || policy.Some? { return false, put; }
      ok, put := ConfigureRetention(l);
    }
  }

  // ------------------------------------------------- what the counts amount to

  /** Every rule is the correct one of one of our IDs, and each ID has its rule:
      three rules for three IDs, so exactly one each. */
  predicate IsRetention(rules: seq<Rule>) {
    && |rules| == 3
    && (forall r :: r in rules ==> Expires(r, SOURCES, "sources/") || Expires(r, ZIPS, "zips/") || Aborts(r))
    && (exists r :: r in rules && Expires(r, SOURCES, "sources/"))
    && (exists r :: r in rules && Expires(r, ZIPS, "zips/"))
    && (exists r :: r in rules && Aborts(r))
  }

  lemma ThreeOf(rules: seq<Rule>, wanted: Rule -> bool)
    requires |rules| == 3
    ensures Count(rules, wanted) ==
      (if wanted(rules[0]) then 1 else 0) + (if wanted(rules[1]) then 1 else 0) + (if wanted(rules[2]) then 1 else 0)
  {
    assert rules[1..][1..] == [rules[2]];
    assert Count(rules[1..][1..], wanted) == if wanted(rules[2]) then 1 else 0;
    assert Count(rules[1..], wanted) == (if wanted(rules[1]) then 1 else 0) + Count(rules[1..][1..], wanted);
  }

  lemma CountsAreRetention(rules: seq<Rule>)
    ensures (|rules| == 3 && CorrectSources(rules) == 1 && CorrectZips(rules) == 1 && CorrectAborts(rules) == 1)
       <==> IsRetention(rules)
  {
    hide Count;
    if |rules| == 3 {
      ThreeOf(rules, r => Expires(r, SOURCES, "sources/"));
      ThreeOf(rules, r => Expires(r, ZIPS, "zips/"));
      ThreeOf(rules, r => Aborts(r));
      assert forall r :: r in rules <==> r == rules[0] || r == rules[1] || r == rules[2];
    }
  }

  // ---------------------------------------------------------- what rules do

  predicate Covers(r: Rule, key: string) {
    r.status == "Enabled" && r.prefix.Some? && StartsWith(key, r.prefix.value)
  }

  /** An object of that age is deleted. */
  predicate IsExpired(rules: seq<Rule>, key: string, days: nat) {
    exists r :: r in rules && Covers(r, key) && r.expiration.Some? && r.expiration.value.days.Some?
                && r.expiration.value.days.value <= days
  }

  /** An upload of that age that was never completed is discarded. */
  predicate IsDiscarded(rules: seq<Rule>, key: string, days: nat) {
    exists r :: r in rules && Covers(r, key) && r.abort.Some? && r.abort.value <= days
  }

  lemma SourcesRule(r: Rule, key: string)
    ensures Expires(r, SOURCES, "sources/") ==>
      Covers(r, key) == StartsWith(key, "sources/") && r.expiration == Some(Expiration(Some(7))) && r.abort.None?
      && !r.transitions && !r.noncurrent
    ensures Expires(r, ZIPS, "zips/") ==>
      Covers(r, key) == StartsWith(key, "zips/") && r.expiration == Some(Expiration(Some(7))) && r.abort.None?
      && !r.transitions && !r.noncurrent
    ensures Aborts(r) ==> Covers(r, key) && r.expiration.None? && r.abort == Some(1) && !r.transitions && !r.noncurrent
  {
  }

  /** The rules a good run leaves delete an object under either prefix at seven days
      and no other object ever, discard any unfinished upload at one day, and do
      nothing else. */
  lemma RetentionActs(rules: seq<Rule>, key: string, days: nat)
    requires IsRetention(rules)
    ensures IsExpired(rules, key, days) <==> (StartsWith(key, "sources/") || StartsWith(key, "zips/")) && days >= 7
    ensures IsDiscarded(rules, key, days) <==> days >= 1
    ensures forall r :: r in rules ==> !r.transitions && !r.noncurrent
  {
    hide Expires, Aborts, Covers, StartsWith;
    forall r ensures (Expires(r, SOURCES, "sources/") ==>
                        Covers(r, key) == StartsWith(key, "sources/") && r.expiration == Some(Expiration(Some(7)))
                        && r.abort.None? && !r.transitions && !r.noncurrent)
                  && (Expires(r, ZIPS, "zips/") ==>
                        Covers(r, key) == StartsWith(key, "zips/") && r.expiration == Some(Expiration(Some(7)))
                        && r.abort.None? && !r.transitions && !r.noncurrent)
                  && (Aborts(r) ==> Covers(r, key) && r.expiration.None? && r.abort == Some(1)
                                    && !r.transitions && !r.noncurrent)
    {
      SourcesRule(r, key);
    }
  }

  predicate AllOurs(rules: seq<Rule>) {
    forall r :: r in rules ==> IsOurs(r)
  }

  lemma {:induction false} OursIsAll(rules: seq<Rule>)
    ensures Ours(rules) <= |rules|
    ensures Ours(rules) == |rules| <==> AllOurs(rules)
  {
    if rules == [] {
    } else {
      OursIsAll(rules[1..]);
      assert forall r :: r in rules <==> r == rules[0] || r in rules[1..];
    }
  }

  lemma DesiredIsRetention()
    ensures IsRetention(DESIRED) && AllOurs(DESIRED)
  {
    assert DESIRED[0] in DESIRED && DESIRED[1] in DESIRED && DESIRED[2] in DESIRED;
  }

  // ---------------------------------------------------------------- one run

  /** The bootstrap has nothing to refuse: no policy, and no rule of someone else. */
  predicate IsAcceptable(s: State) {
    s.present ==> s.policy.None? && AllOurs(Rules(s))
  }

  /** What a run can do, whatever fails: create a bucket that is not there, and
      write our three rules over rules that are all ours. */
  lemma RunChanges(s: State, l: Luck)
    ensures var after := Reconcile(s, l).state;
      after == s || after == Created(s)
      || (after == Created(s).(lifecycle := Some(DESIRED)) && Created(s).policy.None? && AllOurs(Rules(Created(s))))
  {
    hide Ours, AlreadyConfigured, ReadsBack, AllOurs;
    OursIsAll(Rules(Created(s)));
    OursIsAll([]);
  }

  /** A run that exits 0 leaves no policy, and exactly one correct rule for each
      of our IDs and nothing else. */
  lemma ExitZeroMeansRetained(s: State, l: Luck)
    requires Reconcile(s, l).ok
    ensures var after := Reconcile(s, l).state;
      after.present && after.policy.None? && after.lifecycle.Some? && IsRetention(after.lifecycle.value)
  {
    hide CorrectSources, CorrectZips, CorrectAborts, Ours, AlreadyConfigured, IsRetention;
    var after := Reconcile(s, l).state;
    assert ReadsBack(after, l);
    CountsAreRetention(after.lifecycle.value);
  }

  /** A run without a failing call exits 0 exactly when there is nothing to refuse. */
  lemma CleanRunExact(s: State, l: Luck)
    requires IsClean(l)
    ensures Reconcile(s, l).ok <==> IsAcceptable(s)
  {
    hide CorrectSources, CorrectZips, CorrectAborts, Ours, IsRetention, AllOurs;
    var c := Created(s);
    OursIsAll(Rules(c));
    OursIsAll([]);
    CountsAreRetention(Rules(c));
    CountsAreRetention(DESIRED);
    DesiredIsRetention();
  }

  /** From a bucket a run has left with exit 0, a run puts exactly when it gets as
      far as the test and one of the test's own reads fails. */
  lemma NextRunPutsExactly(s: State, before: Luck, l: Luck)
    requires Reconcile(s, before).ok
    ensures var after := Reconcile(s, before).state;
      Reconcile(after, l).put <==>
        (l.head || l.create == Done) && l.policy && l.total && l.owned && !(l.sources && l.zips && l.abort)
  {
    hide CorrectSources, CorrectZips, CorrectAborts, Ours, ReadsBack;
    ExitZeroMeansRetained(s, before);
    var after := Reconcile(s, before).state;
    CountsAreRetention(after.lifecycle.value);
    OursIsAll(after.lifecycle.value);
  }

  /** Without a failing call it changes nothing and exits 0 again. */
  lemma NextCleanRunRests(s: State, before: Luck, l: Luck)
    requires Reconcile(s, before).ok && IsClean(l)
    ensures var after := Reconcile(s, before).state;
      Reconcile(after, l) == Outcome(after, true, false)
  {
    hide CorrectSources, CorrectZips, CorrectAborts, Ours;
    ExitZeroMeansRetained(s, before);
    var after := Reconcile(s, before).state;
    CountsAreRetention(after.lifecycle.value);
    OursIsAll(after.lifecycle.value);
  }

  const CLEAN := Luck(true, Done, true, true, true, true, true, true, Done, true, true, true, true)

  /** That it exits 0 is not enough for a second run not to write: one failed read
      in the test makes it write the configuration again. */
  lemma SecondRunMayPut()
    ensures var first := Reconcile(State(false, None, None), CLEAN.(head := false));
      var second := Reconcile(first.state, CLEAN.(zips := false));
      first.ok && second.ok && second.put
  {
    hide CorrectSources, CorrectZips, CorrectAborts, Ours;
    DesiredIsRetention();
    CountsAreRetention(DESIRED);
    OursIsAll(DESIRED);
  }

  // ------------------------------------------------------------ run after run

  function RunAll(s: State, runs: seq<Luck>): State {
    if runs == [] then s else Reconcile(RunAll(s, runs[..|runs| - 1]), runs[|runs| - 1]).state
  }

  /** Whatever fails in however many runs, a bucket with a policy or with a rule
      of someone else is left as it is: no run overwrites what it does not own. */
  lemma {:induction false} ForeignRulesSurvive(s: State, runs: seq<Luck>)
    requires s.present && !IsAcceptable(s)
    ensures RunAll(s, runs) == s
    decreases |runs|
  {
    hide Reconcile, AllOurs;
    if runs == [] {
    } else {
      ForeignRulesSurvive(s, runs[..|runs| - 1]);
      RunChanges(s, runs[|runs| - 1]);
    }
  }

  lemma {:induction false} RunsStayAcceptable(s: State, runs: seq<Luck>)
    requires IsAcceptable(s)
    ensures IsAcceptable(RunAll(s, runs))
    decreases |runs|
  {
    hide Reconcile, AllOurs;
    if runs == [] {
    } else {
      var before := runs[..|runs| - 1];
      RunsStayAcceptable(s, before);
      RunChanges(RunAll(s, before), runs[|runs| - 1]);
      DesiredIsRetention();
      NoRulesAreOurs();
    }
  }

  lemma NoRulesAreOurs()
    ensures AllOurs([])
  {
  }

  /** Runs converge under any failures: after any of them, the first run without
      a failing call exits 0 exactly when the bucket had nothing to refuse. */
  lemma RunsConverge(s: State, runs: seq<Luck>, l: Luck)
    requires IsClean(l)
    ensures Reconcile(RunAll(s, runs), l).ok <==> IsAcceptable(s)
  {
    hide Reconcile, RunAll, AllOurs;
    CleanRunExact(RunAll(s, runs), l);
    if IsAcceptable(s) {
      RunsStayAcceptable(s, runs);
    } else {
      ForeignRulesSurvive(s, runs);
    }
  }
}
