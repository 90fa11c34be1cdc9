/**
 JSON values as the scripts compare them: serialized after their keys are
 sorted at every level. Members keep their insertion order.
 */
module Json {
  import opened Text
  import opened Sorting

  datatype Value =
    | Null
    | Bool(b: bool)
    | Int(n: int)
    | Str(s: string)
    | Arr(items: seq<Value>)
    | Obj(members: seq<Member>)

  datatype Member = Member(key: string, value: Value)

  // ----------------------------------------------------------- serialization

  function Hex(n: nat): char
    requires n < 16
  {
    "0123456789abcdef"[n]
  }

  function Escaped(c: char): (r: string)
    ensures r != "" && r[0] != '"'
  {
    if c == '"' then "\\\""
    else if c == '\\' then "\\\\"
    else if c as int == 8 then "\\b"
    else if c == '\t' then "\\t"
    else if c == '\n' then "\\n"
    else if c as int == 12 then "\\f"
    else if c == '\r' then "\\r"
    else if c as int < 32 then "\\u00" + [Hex(c as int / 16), Hex(c as int % 16)]
    else [c]
  }

  /** The rest of a quoted text, up to its closing quote. */
  function Quoted(s: string): string {
    if s == "" then "\"" else Escaped(s[0]) + Quoted(s[1..])
  }

  function Quote(s: string): string { "\"" + Quoted(s) }

  /** `JSON.stringify`. */
  function Stringify(v: Value): string
    decreases v
  {
    match v
    case Null => "null"
    case Bool(b) => if b then "true" else "false"
    case Int(n) => IntText(n)
    case Str(s) => Quote(s)
    case Arr(items) => "[" + Items(items)
    case Obj(members) => "{" + Members(members)
  }

  function Items(items: seq<Value>): string
    decreases items
  {
    if items == [] then "]"
    else if |items| == 1 then Stringify(items[0]) + "]"
    else Stringify(items[0]) + ("," + Items(items[1..]))
  }

  function Members(members: seq<Member>): string
    decreases members
  {
    if members == [] then "}"
    else
      var value := members[0].value;
      Quote(members[0].key) + (":" + (Stringify(value) + if |members| == 1 then "}" else "," + Members(members[1..])))
  }

  // -------------------------------------------------- reading it back uniquely

  lemma Cancel(p: string, x: string, y: string)
    requires p + x == p + y
    ensures x == y
  {
    assert (p + x)[|p|..] == x && (p + y)[|p|..] == y;
  }

  function HexValue(c: char): int {
    if c <= '9' then c as int - '0' as int else c as int - 'a' as int + 10
  }

  /** The code of the first character of a text that starts with an escaped one. */
  function FirstCode(t: string): int
    requires t != ""
  {
    if t[0] != '\\' || |t| < 2 then t[0] as int
    else match t[1]
      case 'b' => 8
      case 't' => 9
      case 'n' => 10
      case 'f' => 12
      case 'r' => 13
      case 'u' => if |t| < 6 then 0 else HexValue(t[4]) * 16 + HexValue(t[5])
      case c => c as int
  }

  lemma HexReads(n: nat)
    requires n < 16
    ensures HexValue(Hex(n)) == n
  {
  }

  lemma EscapedReads(c: char, x: string)
    ensures FirstCode(Escaped(c) + x) == c as int
  {
    hide Hex, HexValue;
    if c as int < 32 {
      HexReads(c as int / 16);
      HexReads(c as int % 16);
    }
  }

  lemma EscapedDiffers(c: char, d: char, x: string, y: string)
    requires Escaped(c) + x == Escaped(d) + y
    ensures c == d && x == y
  {
    hide Escaped, FirstCode;
    EscapedReads(c, x);
    EscapedReads(d, y);
    Cancel(Escaped(c), x, y);
  }

  lemma {:induction false} QuotedDiffers(a: string, b: string, x: string, y: string)
    requires Quoted(a) + x == Quoted(b) + y
    ensures a == b && x == y
  {
    hide Escaped;
    assert a != "" ==> Quoted(a) + x == Escaped(a[0]) + (Quoted(a[1..]) + x);
    assert b != "" ==> Quoted(b) + y == Escaped(b[0]) + (Quoted(b[1..]) + y);
    var whole := Quoted(a) + x;
    assert a != "" ==> whole[0] == Escaped(a[0])[0];
    assert b != "" ==> whole[0] == Escaped(b[0])[0];
    if a == "" {
      assert whole[0] == '"';
      Cancel("\"", x, y);
    } else {
      assert b != "";
      EscapedDiffers(a[0], b[0], Quoted(a[1..]) + x, Quoted(b[1..]) + y);
      QuotedDiffers(a[1..], b[1..], x, y);
      assert a == [a[0]] + a[1..] && b == [b[0]] + b[1..];
    }
  }

  lemma QuoteDiffers(a: string, b: string, x: string, y: string)
    requires Quote(a) + x == Quote(b) + y
    ensures a == b && x == y
  {
    hide Quoted;
    assert Quote(a) + x == "\"" + (Quoted(a) + x) && Quote(b) + y == "\"" + (Quoted(b) + y);
    Cancel("\"", Quoted(a) + x, Quoted(b) + y);
    QuotedDiffers(a, b, x, y);
  }

  /** What can follow a value: nothing, a comma, or the end of a list. */
  predicate IsEnd(x: string) {
    x == "" || x[0] in ",]}"
  }

  predicate IsIntChar(c: char) { IsDigit(c) || c == '-' }

  lemma IntTextPlain(n: int)
    ensures IntText(n) != "" && forall c :: c in IntText(n) ==> IsIntChar(c)
  {
  }

  lemma RunStops(a: string, x: string)
    requires IsEnd(x) && forall c :: c in a ==> IsIntChar(c)
    ensures var whole := a + x;
      (forall k :: 0 <= k < |a| ==> IsIntChar(whole[k])) && (|a| < |whole| ==> !IsIntChar(whole[|a|]))
  {
    assert forall k :: 0 <= k < |a| ==> a[k] in a;
  }

  /** Where a run of characters ends, it ends for both. */
  lemma SameRun(a: string, b: string, x: string, y: string)
    requires a + x == b + y && IsEnd(x) && IsEnd(y)
    requires (forall c :: c in a ==> IsIntChar(c)) && (forall c :: c in b ==> IsIntChar(c))
    ensures |a| == |b|
  {
    hide IsIntChar;
    RunStops(a, x);
    RunStops(b, y);
    assert |a + x| == |a| + |x| && |b + y| == |b| + |y|;
  }

  lemma IntDiffers(m: int, n: int, x: string, y: string)
    requires IntText(m) + x == IntText(n) + y && IsEnd(x) && IsEnd(y)
    ensures m == n && x == y
  {
    hide IntText;
    IntTextPlain(m);
    IntTextPlain(n);
    SameRun(IntText(m), IntText(n), x, y);
    assert (IntText(m) + x)[..|IntText(m)|] == IntText(m) && (IntText(n) + y)[..|IntText(n)|] == IntText(n);
    IntTextDiffers(m, n);
    Cancel(IntText(m), x, y);
  }

  /** The first character tells which kind of value it is. */
  function First(v: Value): char {
    match v
    case Null => 'n'
    case Bool(b) => if b then 't' else 'f'
    case Int(n) => IntText(n)[0]
    case Str(_) => '"'
    case Arr(_) => '['
    case Obj(_) => '{'
  }

  lemma FirstIs(v: Value, x: string)
    ensures (Stringify(v) + x)[0] == First(v)
  {
    hide IntText, Quoted;
    if v.Int? { IntTextPlain(v.n); }
  }

  lemma KindsDiffer(v: Value, w: Value)
    requires First(v) == First(w)
    ensures v.Int? <==> w.Int?
    ensures v.Null? <==> w.Null?
    ensures v.Bool? <==> w.Bool?
    ensures v.Bool? && w.Bool? ==> v == w
    ensures v.Str? <==> w.Str?
    ensures v.Arr? <==> w.Arr?
    ensures v.Obj? <==> w.Obj?
    ensures First(v) != ']' && First(v) != '}'
  {
    hide IntText;
    if v.Int? { IntTextPlain(v.n); assert First(v) in IntText(v.n); }
    if w.Int? { IntTextPlain(w.n); assert First(w) in IntText(w.n); }
  }

  /** No serialization is the beginning of another one: equal texts, each ending
      where its value does, serialize equal values. */
  lemma {:induction false} StringifyDiffers(v: Value, w: Value, x: string, y: string)
    requires Stringify(v) + x == Stringify(w) + y && IsEnd(x) && IsEnd(y)
    ensures v == w && x == y
    decreases v, 1
  {
    hide IntText, Quoted, Items, Members;
    FirstIs(v, x);
    FirstIs(w, y);
    KindsDiffer(v, w);
    if v.Str? {
      QuoteDiffers(v.s, w.s, x, y);
    } else if v.Int? {
      IntDiffers(v.n, w.n, x, y);
    } else if v.Arr? {
      assert Stringify(v) + x == "[" + (Items(v.items) + x) && Stringify(w) + y == "[" + (Items(w.items) + y);
      Cancel("[", Items(v.items) + x, Items(w.items) + y);
      ItemsDiffer(v.items, w.items, x, y);
    } else if v.Obj? {
      assert Stringify(v) + x == "{" + (Members(v.members) + x) && Stringify(w) + y == "{" + (Members(w.members) + y);
      Cancel("{", Members(v.members) + x, Members(w.members) + y);
      MembersDiffer(v.members, w.members, x, y);
    } else {
      Cancel(Stringify(v), x, y);
    }
  }

  /** What follows the first item. */
  function AfterItem(items: seq<Value>, x: string): (r: string)
    requires items != []
    ensures IsEnd(r)
  {
    if |items| == 1 then "]" + x else "," + (Items(items[1..]) + x)
  }

  lemma ItemsSplit(items: seq<Value>, x: string)
    requires items != []
    ensures Items(items) + x == Stringify(items[0]) + AfterItem(items, x)
  {
    hide Stringify;
  }

  lemma {:induction false} ItemsDiffer(a: seq<Value>, b: seq<Value>, x: string, y: string)
    requires Items(a) + x == Items(b) + y
    ensures a == b && x == y
    decreases a, 0
  {
    hide Stringify, Items;
    if a == [] || b == [] {
      EmptyItems(a, b, x, y);
    } else {
      ItemsSplit(a, x);
      ItemsSplit(b, y);
      StringifyDiffers(a[0], b[0], AfterItem(a, x), AfterItem(b, y));
      assert AfterItem(a, x)[0] == AfterItem(b, y)[0];
      assert a == [a[0]] + a[1..] && b == [b[0]] + b[1..];
      if |a| == 1 {
        Cancel("]", x, y);
      } else {
        Cancel(",", Items(a[1..]) + x, Items(b[1..]) + y);
        ItemsDiffer(a[1..], b[1..], x, y);
      }
    }
  }

  lemma EmptyItems(a: seq<Value>, b: seq<Value>, x: string, y: string)
    requires Items(a) + x == Items(b) + y && (a == [] || b == [])
    ensures a == b && x == y
  {
    hide Stringify;
    if a != [] { ItemsSplit(a, x); FirstIs(a[0], AfterItem(a, x)); KindsDiffer(a[0], a[0]); }
    if b != [] { ItemsSplit(b, y); FirstIs(b[0], AfterItem(b, y)); KindsDiffer(b[0], b[0]); }
    assert (if a == [] then "]" + x else "]" + y)[0] == ']';
    Cancel("]", x, y);
  }

  function AfterMember(members: seq<Member>, x: string): (r: string)
    requires members != []
    ensures IsEnd(r)
  {
    if |members| == 1 then "}" + x else "," + (Members(members[1..]) + x)
  }

  lemma MembersSplit(members: seq<Member>, x: string)
    requires members != []
    ensures Members(members) + x
         == Quote(members[0].key) + (":" + (Stringify(members[0].value) + AfterMember(members, x)))
  {
    hide Stringify, Quote;
  }

  lemma {:induction false} MembersDiffer(a: seq<Member>, b: seq<Member>, x: string, y: string)
    requires Members(a) + x == Members(b) + y
    ensures a == b && x == y
    decreases a, 0
  {
    hide Stringify, Members, Quote;
    if a == [] || b == [] {
      EmptyMembers(a, b, x, y);
    } else {
      MembersSplit(a, x);
      MembersSplit(b, y);
      var v, w := a[0].value, b[0].value;
      QuoteDiffers(a[0].key, b[0].key, ":" + (Stringify(v) + AfterMember(a, x)), ":" + (Stringify(w) + AfterMember(b, y)));
      Cancel(":", Stringify(v) + AfterMember(a, x), Stringify(w) + AfterMember(b, y));
      StringifyDiffers(v, w, AfterMember(a, x), AfterMember(b, y));
      assert AfterMember(a, x)[0] == AfterMember(b, y)[0];
      assert a == [a[0]] + a[1..] && b == [b[0]] + b[1..];
      if |a| == 1 {
        Cancel("}", x, y);
      } else {
        Cancel(",", Members(a[1..]) + x, Members(b[1..]) + y);
        MembersDiffer(a[1..], b[1..], x, y);
      }
    }
  }

  lemma EmptyMembers(a: seq<Member>, b: seq<Member>, x: string, y: string)
    requires Members(a) + x == Members(b) + y && (a == [] || b == [])
    ensures a == b && x == y
  {
    hide Stringify, Quoted;
    if a != [] { MembersSplit(a, x); }
    if b != [] { MembersSplit(b, y); }
    assert (if a == [] then "}" + x else "}" + y)[0] == '}';
    Cancel("}", x, y);
  }

  /** Serialization is one to one. */
  lemma StringifyOneToOne(v: Value, w: Value)
    requires Stringify(v) == Stringify(w)
    ensures v == w
  {
    hide Stringify;
    assert Stringify(v) + "" == Stringify(v) && Stringify(w) + "" == Stringify(w);
    StringifyDiffers(v, w, "", "");
  }

  // ------------------------------------------------------ up to the key order

  /** A JavaScript object has a key once. */
  predicate IsObject(v: Value)
    decreases v
  {
    match v
    case Arr(items) => forall k :: 0 <= k < |items| ==> IsObject(items[k])
    case Obj(members) =>
      (forall i, j :: 0 <= i < j < |members| ==> members[i].key != members[j].key)
      && forall k :: 0 <= k < |members| ==> IsObject(members[k].value)
    case _ => true
  }

  /** The same value, up to the order of the keys at every depth. */
  predicate Same(v: Value, w: Value)
    decreases v
  {
    match v
    case Arr(items) =>
      w.Arr? && |w.items| == |items| && forall k :: 0 <= k < |items| ==> Same(items[k], w.items[k])
    case Obj(members) =>
      w.Obj? && |w.members| == |members|
      && forall i :: 0 <= i < |members| ==>
           exists j :: 0 <= j < |w.members| && members[i].key == w.members[j].key
                       && Same(members[i].value, w.members[j].value)
    case _ => v == w
  }

  predicate KeyLess(a: string, b: string) {
    if b == "" then false
    else if a == "" then true
    else if a[0] != b[0] then a[0] < b[0]
    else KeyLess(a[1..], b[1..])
  }

  predicate MemberLess(m: Member, n: Member) { KeyLess(m.key, n.key) }

  /** `canonical`: the members of every object sorted by key. */
  function Canonical(v: Value): Value
    decreases v
  {
    match v
    case Arr(items) => Arr(seq(|items|, k requires 0 <= k < |items| => Canonical(items[k])))
    case Obj(members) =>
      Obj(Sort(seq(|members|, k requires 0 <= k < |members| => Member(members[k].key, Canonical(members[k].value))),
               (m, n) => MemberLess(m, n)))
    case _ => v
  }

  function CanonicalAll(items: seq<Value>): (r: seq<Value>)
    ensures |r| == |items|
  {
    seq(|items|, k requires 0 <= k < |items| => Canonical(items[k]))
  }

  function CanonicalMembers(members: seq<Member>): (r: seq<Member>)
    ensures |r| == |members|
  {
    seq(|members|, k requires 0 <= k < |members| => Member(members[k].key, Canonical(members[k].value)))
  }

  const BY_KEY: (Member, Member) -> bool := (m, n) => MemberLess(m, n)

  lemma CanonicalObj(members: seq<Member>)
    ensures Canonical(Obj(members)) == Obj(Sort(CanonicalMembers(members), BY_KEY))
  {
  }

  lemma {:induction false} KeyLessOrders(a: string, b: string, c: string)
    ensures !KeyLess(a, a)
    ensures KeyLess(a, b) && KeyLess(b, c) ==> KeyLess(a, c)
    ensures KeyLess(a, c) ==> KeyLess(a, b) || KeyLess(b, c)
    decreases |a|
  {
    if a != "" && b != "" && c != "" {
      KeyLessOrders(a[1..], b[1..], c[1..]);
    } else if a != "" {
      KeyLessOrders(a[1..], a[1..], a[1..]);
    }
  }

  lemma {:induction false} KeyLessTotal(a: string, b: string)
    requires a != b
    ensures KeyLess(a, b) || KeyLess(b, a)
  {
    if a == "" || b == "" || a[0] != b[0] {
    } else {
      assert a == [a[0]] + a[1..] && b == [b[0]] + b[1..];
      KeyLessTotal(a[1..], b[1..]);
    }
  }

  lemma ByKeyOrders()
    ensures IsOrder(BY_KEY)
  {
    hide KeyLess;
    forall m, n, o: Member
      ensures !BY_KEY(m, m)
      ensures BY_KEY(m, n) && BY_KEY(n, o) ==> BY_KEY(m, o)
      ensures BY_KEY(m, o) ==> BY_KEY(m, n) || BY_KEY(n, o)
    {
      KeyLessOrders(m.key, n.key, o.key);
    }
  }

  predicate HasDistinctKeys(members: seq<Member>) {
    forall i, j :: 0 <= i < j < |members| ==> members[i].key != members[j].key
  }

  lemma DistinctKeysUntied(members: seq<Member>)
    requires HasDistinctKeys(members)
    ensures IsUntied(members, BY_KEY)
  {
    hide KeyLess;
    forall i, j | 0 <= i < j < |members| ensures BY_KEY(members[i], members[j]) || BY_KEY(members[j], members[i]) {
      KeyLessTotal(members[i].key, members[j].key);
    }
  }

  /** Objects have one canonical form exactly when their members do, whatever the
      order they come in. */
  lemma SameMembers(a: seq<Member>, b: seq<Member>)
    requires HasDistinctKeys(a)
    ensures Sort(a, BY_KEY) == Sort(b, BY_KEY) <==> |a| == |b| && forall m :: m in a ==> m in b
  {
    hide Sort;
    if Sort(a, BY_KEY) == Sort(b, BY_KEY) {
      SortKeeps(a, BY_KEY);
      SortKeeps(b, BY_KEY);
      SameElements(a, b);
    }
    if |a| == |b| && forall m :: m in a ==> m in b {
      DifferentMembers(a);
      AllAmong(a, b);
      ByKeyOrders();
      DistinctKeysUntied(a);
      SortsAgree(a, b, BY_KEY);
    }
  }

  lemma SameElements(a: seq<Member>, b: seq<Member>)
    requires multiset(a) == multiset(b)
    ensures |a| == |b| && forall m :: m in a ==> m in b
  {
    assert |a| == |multiset(a)| == |multiset(b)| == |b|;
    forall m | m in a ensures m in b {
      assert m in multiset(a);
    }
  }

  lemma DifferentMembers(a: seq<Member>)
    requires HasDistinctKeys(a)
    ensures AreDifferent(a)
  {
    assert forall i, j :: 0 <= i < j < |a| ==> a[i].key != a[j].key;
  }

  /** Two values have one canonical form exactly when they are the same up to the
      order of the keys at every depth. */
  lemma {:induction false} CanonicalExactly(v: Value, w: Value)
    requires IsObject(v) && IsObject(w)
    ensures Canonical(v) == Canonical(w) <==> Same(v, w)
    decreases v
  {
    hide Sort, KeyLess;
    if v.Arr? && w.Arr? {
      CanonicalArrays(v, w);
    } else if v.Obj? && w.Obj? {
      CanonicalObjects(v, w);
    }
  }

  lemma {:induction false} CanonicalArrays(v: Value, w: Value)
    requires IsObject(v) && IsObject(w) && v.Arr? && w.Arr?
    ensures Canonical(v) == Canonical(w) <==> Same(v, w)
    decreases v, 0
  {
    hide Canonical, Same, IsObject;
    UnfoldArrays(v, w);
    if |v.items| == |w.items| {
      forall k | 0 <= k < |v.items|
        ensures CanonicalAll(v.items)[k] == CanonicalAll(w.items)[k] <==> Same(v.items[k], w.items[k])
      {
        CanonicalExactly(v.items[k], w.items[k]);
      }
    }
  }

  lemma UnfoldArrays(v: Value, w: Value)
    requires IsObject(v) && IsObject(w) && v.Arr? && w.Arr?
    ensures Canonical(v) == Arr(CanonicalAll(v.items)) && Canonical(w) == Arr(CanonicalAll(w.items))
    ensures forall k :: 0 <= k < |v.items| ==> IsObject(v.items[k])
    ensures forall k :: 0 <= k < |w.items| ==> IsObject(w.items[k])
    ensures Same(v, w) <==>
      |w.items| == |v.items| && forall k :: 0 <= k < |v.items| ==> Same(v.items[k], w.items[k])
  {
  }

  /** A member with its fellow in the other object. */
  ghost predicate HasFellow(m: Member, members: seq<Member>) {
    exists j :: 0 <= j < |members| && m.key == members[j].key && Same(m.value, members[j].value)
  }

  lemma UnfoldObject(v: Value)
    requires IsObject(v) && v.Obj?
    ensures HasDistinctKeys(v.members)
    ensures forall k :: 0 <= k < |v.members| ==> IsObject(v.members[k].value)
  {
  }

  lemma UnfoldSame(v: Value, w: Value)
    requires v.Obj? && w.Obj?
    ensures Same(v, w) <==>
      |w.members| == |v.members| && forall i :: 0 <= i < |v.members| ==> HasFellow(v.members[i], w.members)
  {
    if Same(v, w) {
      forall i | 0 <= i < |v.members| ensures HasFellow(v.members[i], w.members) {
        var j :| 0 <= j < |w.members| && v.members[i].key == w.members[j].key
                 && Same(v.members[i].value, w.members[j].value);
      }
    } else if |w.members| == |v.members| {
      var i :| 0 <= i < |v.members| &&
        !exists j :: 0 <= j < |w.members| && v.members[i].key == w.members[j].key
                     && Same(v.members[i].value, w.members[j].value);
      assert !HasFellow(v.members[i], w.members);
    }
  }

  lemma {:induction false} CanonicalObjects(v: Value, w: Value)
    requires IsObject(v) && IsObject(w) && v.Obj? && w.Obj?
    ensures Canonical(v) == Canonical(w) <==> Same(v, w)
    decreases v, 0
  {
    hide Canonical, Same, IsObject, Sort, KeyLess, HasFellow;
    UnfoldObject(v);
    UnfoldObject(w);
    UnfoldSame(v, w);
    CanonicalObj(v.members);
    CanonicalObj(w.members);
    var a, b := CanonicalMembers(v.members), CanonicalMembers(w.members);
    assert HasDistinctKeys(a);
    SameMembers(a, b);
    forall i | 0 <= i < |v.members| ensures a[i] in b <==> HasFellow(v.members[i], w.members) {
      CanonicalMember(v, w, i);
    }
    assert (forall m :: m in a ==> m in b) <==> forall i :: 0 <= i < |a| ==> a[i] in b;
  }

  lemma {:induction false} CanonicalMember(v: Value, w: Value, i: nat)
    requires v.Obj? && w.Obj? && i < |v.members| && IsObject(v.members[i].value)
    requires forall k :: 0 <= k < |w.members| ==> IsObject(w.members[k].value)
    ensures CanonicalMembers(v.members)[i] in CanonicalMembers(w.members) <==> HasFellow(v.members[i], w.members)
    decreases v, 0, i
  {
    hide Canonical, Same, IsObject;
    var m, b := v.members[i], CanonicalMembers(w.members);
    assert m.value < v;
    forall j | 0 <= j < |w.members|
      ensures CanonicalMembers(v.members)[i] == b[j] <==> m.key == w.members[j].key && Same(m.value, w.members[j].value)
    {
      CanonicalExactly(m.value, w.members[j].value);
    }
    if CanonicalMembers(v.members)[i] in b {
      var j :| 0 <= j < |b| && b[j] == CanonicalMembers(v.members)[i];
    }
    if HasFellow(m, w.members) {
      var j :| 0 <= j < |w.members| && m.key == w.members[j].key && Same(m.value, w.members[j].value);
      assert b[j] == CanonicalMembers(v.members)[i];
    }
  }
}
