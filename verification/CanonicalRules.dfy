/**
 The comparison by which the bootstrap's scenarios and the smoke test judge a
 bucket's lifecycle rules (scripts/check-storage-bootstrap.mjs and
 scripts/smoke-local-integration.mjs): rules sorted by ID, keys sorted at every
 level, and the two serializations compared.
 */
module CanonicalRules {
  import opened Text
  import opened Sorting
  import opened Json

  function Field(members: seq<Member>, key: string): Option<Value> {
    if members == [] then None
    else if members[0].key == key then Some(members[0].value)
    else Field(members[1..], key)
  }

  /** `String(rule.ID)`, for an ID that is a text, a number, a flag or missing. */
  function IdText(rule: Value): string {
    if !rule.Obj? then "undefined"
    else match Field(rule.members, "ID")
      case None => "undefined"
      case Some(Str(s)) => s
      case Some(Int(n)) => IntText(n)
      case Some(Bool(b)) => if b then "true" else "false"
      case Some(Null) => "null"
      case Some(Arr(_)) => ""
      case Some(Obj(_)) => "[object Object]"
  }

  /** What `localeCompare` is to the sort: any collation will do that compares
      consistently. Different texts may be equal to it. */
  ghost predicate IsCollation(compare: (string, string) -> int) {
    && (forall a, b :: compare(a, b) < 0 <==> compare(b, a) > 0)
    && (forall a, b, c :: compare(a, b) < 0 && compare(b, c) < 0 ==> compare(a, c) < 0)
    && (forall a, b, c :: compare(a, c) < 0 ==> compare(a, b) < 0 || compare(b, c) < 0)
  }

  function ById(compare: (string, string) -> int): (Value, Value) -> bool {
    (a, b) => compare(IdText(a), IdText(b)) < 0
  }

  /** `canonicalRules`. */
  function Form(rules: seq<Value>, compare: (string, string) -> int): string {
    Stringify(Canonical(Arr(Sort(rules, ById(compare)))))
  }

  /** Rules as JavaScript can hold them. */
  predicate AreObjects(rules: seq<Value>) {
    forall k :: 0 <= k < |rules| ==> IsObject(rules[k])
  }

  predicate SameEach(a: seq<Value>, b: seq<Value>) {
    |a| == |b| && forall k :: 0 <= k < |a| ==> Same(a[k], b[k])
  }

  /** The lists hold the same rules: arranged suitably they are, rule by rule, the
      same up to the order of the keys at every depth. */
  ghost predicate HoldSameRules(a: seq<Value>, b: seq<Value>) {
    exists c, d :: multiset(c) == multiset(a) && multiset(d) == multiset(b) && SameEach(c, d)
  }

  // ---------------------------------------------------------------- the forms

  lemma ByIdOrders(compare: (string, string) -> int)
    requires IsCollation(compare)
    ensures IsOrder(ById(compare))
  {
    hide IdText;
    var less := ById(compare);
    forall x, y, z: Value
      ensures !less(x, x)
      ensures less(x, y) && less(y, z) ==> less(x, z)
      ensures less(x, z) ==> less(x, y) || less(y, z)
    {
      var a, b, c := IdText(x), IdText(y), IdText(z);
      assert compare(a, a) < 0 <==> compare(a, a) > 0;
    }
  }

  lemma SortedObjects(rules: seq<Value>, arranged: seq<Value>)
    requires AreObjects(rules) && multiset(arranged) == multiset(rules)
    ensures AreObjects(arranged)
  {
    forall k | 0 <= k < |arranged| ensures IsObject(arranged[k]) {
      assert arranged[k] in multiset(rules);
    }
  }

  /** Equal forms are sorted lists that are the same rule by rule. */
  lemma FormsExactly(a: seq<Value>, b: seq<Value>, compare: (string, string) -> int)
    requires AreObjects(a) && AreObjects(b)
    ensures Form(a, compare) == Form(b, compare) <==> SameEach(Sort(a, ById(compare)), Sort(b, ById(compare)))
  {
    hide Stringify, Canonical, Sort, ById;
    var s, t := Sort(a, ById(compare)), Sort(b, ById(compare));
    SortKeeps(a, ById(compare));
    SortKeeps(b, ById(compare));
    SortedObjects(a, s);
    SortedObjects(b, t);
    assert IsObject(Arr(s)) && IsObject(Arr(t));
    CanonicalExactly(Arr(s), Arr(t));
    assert Same(Arr(s), Arr(t)) <==> SameEach(s, t);
    if Form(a, compare) == Form(b, compare) {
      StringifyOneToOne(Canonical(Arr(s)), Canonical(Arr(t)));
    }
  }

  // ------------------------------------------------------ the order of the IDs

  lemma {:induction false} FieldAt(members: seq<Member>, j: nat)
    requires HasDistinctKeys(members) && j < |members|
    ensures Field(members, members[j].key) == Some(members[j].value)
  {
    if j == 0 {
    } else {
      assert members[0].key != members[j].key;
      FieldAt(members[1..], j - 1);
    }
  }

  lemma {:induction false} FieldFound(members: seq<Member>, key: string) returns (j: nat)
    requires Field(members, key).Some?
    ensures j < |members| && members[j].key == key && Field(members, key) == Some(members[j].value)
  {
    if members[0].key == key {
      j := 0;
    } else {
      j := FieldFound(members[1..], key);
      j := j + 1;
    }
  }

  lemma {:induction false} NoField(members: seq<Member>, key: string, j: nat)
    requires Field(members, key).None? && j < |members|
    ensures members[j].key != key
  {
    if j == 0 || members[0].key == key {
    } else {
      NoField(members[1..], key, j - 1);
    }
  }

  /** Rules that are the same have one ID. */
  lemma SameId(a: Value, b: Value)
    requires IsObject(a) && IsObject(b) && Same(a, b)
    ensures IdText(a) == IdText(b)
  {
    hide IntText, IsObject;
    if a.Obj? {
      UnfoldObject(b);
      UnfoldSame(a, b);
      if Field(a.members, "ID").Some? {
        var i := FieldFound(a.members, "ID");
        assert HasFellow(a.members[i], b.members);
        var j :| 0 <= j < |b.members| && b.members[j].key == "ID" && Same(a.members[i].value, b.members[j].value);
        FieldAt(b.members, j);
      } else if Field(b.members, "ID").Some? {
        SameIdMissing(a, b);
      }
    }
  }

  lemma SameIdMissing(a: Value, b: Value)
    requires IsObject(a) && IsObject(b) && a.Obj? && b.Obj? && Same(a, b) && Field(b.members, "ID").Some?
    ensures Field(a.members, "ID").Some?
  {
    hide Same, IsObject;
    SameFlips(a, b);
    UnfoldSame(b, a);
    var j := FieldFound(b.members, "ID");
    assert HasFellow(b.members[j], a.members);
    var i :| 0 <= i < |a.members| && a.members[i].key == "ID";
    if Field(a.members, "ID").None? {
      NoField(a.members, "ID", i);
    }
  }

  lemma SameFlips(a: Value, b: Value)
    requires IsObject(a) && IsObject(b) && Same(a, b)
    ensures Same(b, a)
  {
    hide Canonical, Same, IsObject;
    CanonicalExactly(a, b);
    CanonicalExactly(b, a);
  }

  lemma ConsSame(x: Value, y: Value, s: seq<Value>, t: seq<Value>)
    requires Same(x, y) && SameEach(s, t)
    ensures SameEach([x] + s, [y] + t)
  {
    hide Same;
  }

  lemma {:induction false} InsertSame(x: Value, y: Value, s: seq<Value>, t: seq<Value>, compare: (string, string) -> int)
    requires IsObject(x) && IsObject(y) && AreObjects(s) && AreObjects(t) && Same(x, y) && SameEach(s, t)
    ensures SameEach(Insert(x, s, ById(compare)), Insert(y, t, ById(compare)))
  {
    hide Same, IsObject, IdText;
    SameId(x, y);
    if s == [] {
    } else {
      SameId(s[0], t[0]);
    }
    if s != [] && ById(compare)(s[0], x) {
      InsertSame(x, y, s[1..], t[1..], compare);
      ConsSame(s[0], t[0], Insert(x, s[1..], ById(compare)), Insert(y, t[1..], ById(compare)));
    } else {
      ConsSame(x, y, s, t);
    }
  }

  /** Lists that are the same rule by rule sort alike. */
  lemma {:induction false} SortSame(s: seq<Value>, t: seq<Value>, compare: (string, string) -> int)
    requires AreObjects(s) && AreObjects(t) && SameEach(s, t)
    ensures SameEach(Sort(s, ById(compare)), Sort(t, ById(compare)))
  {
    hide Same, IsObject, Insert, ById;
    if s == [] {
    } else {
      SortSame(s[1..], t[1..], compare);
      SortKeeps(s[1..], ById(compare));
      SortKeeps(t[1..], ById(compare));
      SortedObjects(s[1..], Sort(s[1..], ById(compare)));
      SortedObjects(t[1..], Sort(t[1..], ById(compare)));
      InsertSame(s[0], t[0], Sort(s[1..], ById(compare)), Sort(t[1..], ById(compare)), compare);
    }
  }

  // ------------------------------------------------------------- the theorem

  /** Equal forms always hold the same rules. */
  lemma EqualFormsHoldSame(a: seq<Value>, b: seq<Value>, compare: (string, string) -> int)
    requires AreObjects(a) && AreObjects(b) && Form(a, compare) == Form(b, compare)
    ensures HoldSameRules(a, b)
  {
    hide Form, SameEach, Sort, ById, AreObjects;
    FormsExactly(a, b, compare);
    SortKeeps(a, ById(compare));
    SortKeeps(b, ById(compare));
  }

  /** Rules whose IDs the collation does not tell apart are copies of one rule. */
  ghost predicate TiesAreCopies(rules: seq<Value>, compare: (string, string) -> int) {
    forall i, j :: 0 <= i < j < |rules| && compare(IdText(rules[i]), IdText(rules[j])) == 0 ==> Same(rules[i], rules[j])
  }

  lemma TieIsZero(x: Value, y: Value, compare: (string, string) -> int)
    requires IsCollation(compare)
    ensures Ties(x, y, ById(compare)) <==> compare(IdText(x), IdText(y)) == 0
  {
    hide IdText;
    var a, b := IdText(x), IdText(y);
    assert compare(a, b) < 0 <==> compare(b, a) > 0;
    assert compare(b, a) < 0 <==> compare(a, b) > 0;
  }

  lemma SameItself(rule: Value)
    requires IsObject(rule)
    ensures Same(rule, rule)
  {
    CanonicalExactly(rule, rule);
  }

  lemma SameChain(a: Value, b: Value, c: Value)
    requires IsObject(a) && IsObject(b) && IsObject(c) && Same(a, b) && Same(b, c)
    ensures Same(a, c)
  {
    hide Canonical, Same, IsObject;
    CanonicalExactly(a, b);
    CanonicalExactly(b, c);
    CanonicalExactly(a, c);
  }

  /** Any two rules of the list that tie are the same. */
  lemma TiedMembers(rules: seq<Value>, x: Value, y: Value, compare: (string, string) -> int)
    requires AreObjects(rules) && IsCollation(compare) && TiesAreCopies(rules, compare)
    requires x in rules && y in rules && Ties(x, y, ById(compare))
    ensures Same(x, y)
  {
    hide IdText, Same, IsObject, IsCollation, ById, Ties;
    var i :| 0 <= i < |rules| && rules[i] == x;
    var j :| 0 <= j < |rules| && rules[j] == y;
    TieIsZero(x, y, compare);
    if i < j {
    } else if j < i {
      TieFlips(x, y, ById(compare));
      TieIsZero(y, x, compare);
      SameFlips(y, x);
    } else {
      SameItself(x);
    }
  }

  lemma TieFlips(x: Value, y: Value, less: (Value, Value) -> bool)
    requires Ties(x, y, less)
    ensures Ties(y, x, less)
  {
  }

  /** If the ties of one list are copies, so are those of a list of the same rules. */
  lemma CopiesCarry(c: seq<Value>, d: seq<Value>, x: Value, y: Value, compare: (string, string) -> int)
    requires AreObjects(c) && AreObjects(d) && SameEach(c, d) && IsCollation(compare) && TiesAreCopies(d, compare)
    requires x in c && y in c && Ties(x, y, ById(compare))
    ensures Same(x, y)
  {
    hide Same, IsObject, IdText, TiesAreCopies, IsCollation;
    var i :| 0 <= i < |c| && c[i] == x;
    var j :| 0 <= j < |c| && c[j] == y;
    SameId(c[i], d[i]);
    SameId(c[j], d[j]);
    TiedMembers(d, d[i], d[j], compare);
    SameFlips(c[j], d[j]);
    SameChain(c[i], d[i], d[j]);
    SameChain(c[i], d[j], c[j]);
  }

  lemma CopiesRearranged(b: seq<Value>, d: seq<Value>, compare: (string, string) -> int)
    requires AreObjects(b) && IsCollation(compare) && TiesAreCopies(b, compare) && multiset(b) == multiset(d)
    ensures TiesAreCopies(d, compare)
  {
    hide IdText, Same, IsObject, IsCollation, ById, Ties;
    forall i, j | 0 <= i < j < |d| && compare(IdText(d[i]), IdText(d[j])) == 0 ensures Same(d[i], d[j]) {
      assert d[i] in multiset(b) && d[j] in multiset(b);
      TieIsZero(d[i], d[j], compare);
      TiedMembers(b, d[i], d[j], compare);
    }
  }

  /** Where ties are copies, two arrangements of a list sort to the same rules. */
  lemma ArrangementsSortSame(a: seq<Value>, c: seq<Value>, compare: (string, string) -> int)
    requires AreObjects(a) && IsCollation(compare) && multiset(a) == multiset(c)
    requires forall x, y :: x in a && y in a && Ties(x, y, ById(compare)) ==> Same(x, y)
    ensures SameEach(Sort(a, ById(compare)), Sort(c, ById(compare)))
  {
    hide IdText, Same, IsObject, IsCollation, ById, Sort, Ties;
    var less := ById(compare);
    ByIdOrders(compare);
    SortKeeps(a, less);
    SortKeeps(c, less);
    SortSorts(a, less);
    SortSorts(c, less);
    var s, t := Sort(a, less), Sort(c, less);
    assert |a| == |multiset(a)| == |multiset(c)| == |c|;
    forall k: nat | k < |s| ensures Same(s[k], t[k]) {
      SortedTie(s, t, less, k);
      assert s[k] in multiset(a) && t[k] in multiset(a);
    }
  }

  lemma SameEachChain(a: seq<Value>, b: seq<Value>, c: seq<Value>)
    requires AreObjects(a) && AreObjects(b) && AreObjects(c) && SameEach(a, b) && SameEach(b, c)
    ensures SameEach(a, c)
  {
    hide Same, IsObject;
    forall k | 0 <= k < |a| ensures Same(a[k], c[k]) {
      SameChain(a[k], b[k], c[k]);
    }
  }

  /** Lists that hold the same rules, ties being copies, have equal forms. */
  lemma SameRulesEqualForms(a: seq<Value>, b: seq<Value>, compare: (string, string) -> int)
    requires AreObjects(a) && AreObjects(b) && IsCollation(compare) && TiesAreCopies(b, compare)
    requires HoldSameRules(a, b)
    ensures Form(a, compare) == Form(b, compare)
  {
    hide Form, SameEach, Sort, ById, AreObjects, IsCollation, TiesAreCopies, Ties, Same;
    var less := ById(compare);
    var c, d :| multiset(c) == multiset(a) && multiset(d) == multiset(b) && SameEach(c, d);
    SortedObjects(a, c);
    SortedObjects(b, d);
    CopiesRearranged(b, d, compare);
    forall x, y | x in a && y in a && Ties(x, y, less) ensures Same(x, y) {
      assert x in multiset(a) && y in multiset(a);
      CopiesCarry(c, d, x, y, compare);
    }
    forall x, y | x in b && y in b && Ties(x, y, less) ensures Same(x, y) {
      TiedMembers(b, x, y, compare);
    }
    forall x, y | x in d && y in d && Ties(x, y, less) ensures Same(x, y) {
      TiedMembers(d, x, y, compare);
    }
    ArrangementsSortSame(a, c, compare);
    SortSame(c, d, compare);
    ArrangementsSortSame(d, b, compare);
    AllSortedObjects(a, less);
    AllSortedObjects(b, less);
    AllSortedObjects(c, less);
    AllSortedObjects(d, less);
    SameEachChain(Sort(a, less), Sort(c, less), Sort(d, less));
    SameEachChain(Sort(a, less), Sort(d, less), Sort(b, less));
    FormsExactly(a, b, compare);
  }

  lemma AllSortedObjects(rules: seq<Value>, less: (Value, Value) -> bool)
    requires AreObjects(rules)
    ensures AreObjects(Sort(rules, less))
  {
    hide AreObjects;
    SortKeeps(rules, less);
    SortedObjects(rules, Sort(rules, less));
  }

  /** Two different rules that tie make the order matter: the list with the two
      exchanged holds the same rules and has another form. */
  lemma TieBreaksComparison(b: seq<Value>, i: nat, j: nat, compare: (string, string) -> int) returns (a: seq<Value>)
    requires AreObjects(b) && IsCollation(compare) && i < j < |b|
    requires compare(IdText(b[i]), IdText(b[j])) == 0 && !Same(b[i], b[j])
    ensures AreObjects(a) && HoldSameRules(a, b) && Form(a, compare) != Form(b, compare)
  {
    hide Form, Same, IdText, IsObject, IsCollation, Sort, ById, Ties;
    var less := ById(compare);
    var s := Sort(b, less);
    ByIdOrders(compare);
    SortKeeps(b, less);
    SortSorts(b, less);
    assert b[i] in multiset(s) && b[j] in multiset(s);
    var k :| 0 <= k < |s| && s[k] == b[i];
    var l :| 0 <= l < |s| && s[l] == b[j];
    SameItself(b[i]);
    TieIsZero(b[i], b[j], compare);
    a := s[k := s[l]][l := s[k]];
    ExchangeKeeps(s, k, l);
    ExchangeSorted(s, k, l, less);
    SortedStays(a, less);
    SortedObjects(b, a);
    EachSameItself(b);
    assert multiset(b) == multiset(a) && SameEach(b, b);
    FormsExactly(a, b, compare);
    assert !Same(a[l], s[l]);
  }

  lemma EachSameItself(rules: seq<Value>)
    requires AreObjects(rules)
    ensures SameEach(rules, rules)
  {
    hide Same, IsObject;
    forall k | 0 <= k < |rules| ensures Same(rules[k], rules[k]) {
      SameItself(rules[k]);
    }
  }

  /** The comparison with a list is exact for every other list: equal forms exactly
      for the same rules. */
  ghost predicate ComparesExactly(b: seq<Value>, compare: (string, string) -> int) {
    forall a :: AreObjects(a) ==> (Form(a, compare) == Form(b, compare) <==> HoldSameRules(a, b))
  }

  /** It is so exactly when the rules of the list that tie are copies of one rule:
      for every collation, up to the order of the rules and of the keys at every
      depth. */
  lemma ComparisonExactly(b: seq<Value>, compare: (string, string) -> int)
    requires AreObjects(b) && IsCollation(compare)
    ensures ComparesExactly(b, compare) <==> TiesAreCopies(b, compare)
  {
    hide Form, HoldSameRules, AreObjects, IsCollation, Same, IdText;
    if TiesAreCopies(b, compare) {
      forall a | AreObjects(a) ensures Form(a, compare) == Form(b, compare) <==> HoldSameRules(a, b) {
        FormsCompareRules(a, b, compare);
      }
    } else {
      var i, j :| 0 <= i < j < |b| && compare(IdText(b[i]), IdText(b[j])) == 0 && !Same(b[i], b[j]);
      var a := TieBreaksComparison(b, i, j, compare);
    }
  }

  lemma FormsCompareRules(a: seq<Value>, b: seq<Value>, compare: (string, string) -> int)
    requires AreObjects(a) && AreObjects(b) && IsCollation(compare) && TiesAreCopies(b, compare)
    ensures Form(a, compare) == Form(b, compare) <==> HoldSameRules(a, b)
  {
    hide Form, HoldSameRules, AreObjects, IsCollation, TiesAreCopies;
    if Form(a, compare) == Form(b, compare) {
      EqualFormsHoldSame(a, b, compare);
    } else if HoldSameRules(a, b) {
      SameRulesEqualForms(a, b, compare);
    }
  }

  // --------------------------------------------------------- the owned rules

  function Rule(id: string, prefix: string, action: Member): Value {
    Obj([Member("ID", Str(id)), Member("Status", Str("Enabled")), Member("Filter", Obj([Member("Prefix", Str(prefix))])), action])
  }

  const OWNED_RULES := [
    Rule("expire-sources", "sources/", Member("Expiration", Obj([Member("Days", Int(7))]))),
    Rule("expire-zips", "zips/", Member("Expiration", Obj([Member("Days", Int(7))]))),
    Rule("abort-incomplete-uploads", "", Member("AbortIncompleteMultipartUpload", Obj([Member("DaysAfterInitiation", Int(1))])))]

  lemma RuleIs(id: string, prefix: string, action: Member)
    requires action.key !in ["ID", "Status", "Filter"] && IsObject(action.value)
    ensures IsObject(Rule(id, prefix, action)) && IdText(Rule(id, prefix, action)) == id
  {
    var members := Rule(id, prefix, action).members;
    assert action.key != ["ID", "Status", "Filter"][0] && action.key != ["ID", "Status", "Filter"][1]
           && action.key != ["ID", "Status", "Filter"][2];
    assert HasDistinctKeys(members);
    assert IsObject(members[2].value);
  }

  lemma OwnedRulesAre()
    ensures AreObjects(OWNED_RULES)
    ensures IdText(OWNED_RULES[0]) == "expire-sources" && IdText(OWNED_RULES[1]) == "expire-zips"
    ensures IdText(OWNED_RULES[2]) == "abort-incomplete-uploads"
  {
    hide Rule, IdText;
    var days, after := Obj([Member("Days", Int(7))]), Obj([Member("DaysAfterInitiation", Int(1))]);
    assert IsObject(days) && IsObject(after);
    RuleIs("expire-sources", "sources/", Member("Expiration", days));
    RuleIs("expire-zips", "zips/", Member("Expiration", days));
    RuleIs("abort-incomplete-uploads", "", Member("AbortIncompleteMultipartUpload", after));
  }

  /** `assertOwnedRules` and `assertOwnedLifecycle` accept a configuration exactly
      when it holds the owned rules, whatever IDs it holds. */
  lemma OwnedRulesExactly(rules: seq<Value>, compare: (string, string) -> int)
    requires AreObjects(rules) && IsCollation(compare)
    requires compare("expire-sources", "expire-zips") != 0
    requires compare("expire-sources", "abort-incomplete-uploads") != 0
    requires compare("expire-zips", "abort-incomplete-uploads") != 0
    ensures Form(rules, compare) == Form(OWNED_RULES, compare) <==> HoldSameRules(rules, OWNED_RULES)
  {
    hide Form, HoldSameRules, Rule, IdText, AreObjects;
    OwnedRulesAre();
    assert TiesAreCopies(OWNED_RULES, compare);
    FormsCompareRules(rules, OWNED_RULES, compare);
  }
}
