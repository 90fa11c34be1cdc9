/**
 The JavaScript string operations the scripts build on: white space as
 `String.prototype.trim` and `\s` see it, slicing, searching, splitting into
 lines. A string is a sequence of Unicode scalar values.
 */
module Text {
  datatype Option<+T> = None | Some(value: T)

  datatype Result<+T, +E> = Ok(value: T) | Err(error: E) {
    predicate IsFailure() { Err? }

    function PropagateFailure<U>(): Result<U, E>
      requires Err?
    {
      Err(error)
    }

    function Extract(): T
      requires Ok?
    {
      value
    }
  }

  /** What a reader has produced so far, before the result of reading on. */
  function Prepend<T, E>(done: seq<T>, r: Result<seq<T>, E>): Result<seq<T>, E> {
    if r.Ok? then Ok(done + r.value) else r
  }

  lemma PrependTwice<T, E>(a: seq<T>, b: seq<T>, r: Result<seq<T>, E>)
    ensures Prepend(a, Prepend(b, r)) == Prepend(a + b, r)
  {
    if r.Ok? {
      assert a + (b + r.value) == a + b + r.value;
    }
  }

  lemma PrependNothing<T, E>(done: seq<T>, r: Result<seq<T>, E>)
    ensures Prepend([], r) == r
    ensures Prepend(done, Result<seq<T>, E>.Ok([])) == Ok(done)
    ensures r.Err? ==> Prepend(done, r) == r
  {
    assert r.Ok? ==> [] + r.value == r.value;
    assert done + [] == done;
  }

  /** The characters `\s` matches and `trim` removes. */
  predicate IsSpace(c: char) {
    || '\t' <= c <= '\r'
    || c == ' '
    || c == '\U{00A0}'
    || c == '\U{1680}'
    || '\U{2000}' <= c <= '\U{200A}'
    || c == '\U{2028}' || c == '\U{2029}' || c == '\U{202F}'
    || c == '\U{205F}' || c == '\U{3000}' || c == '\U{FEFF}'
  }

  /** The characters `.` does not match. */
  predicate IsLineTerminator(c: char) {
    c == '\n' || c == '\r' || c == '\U{2028}' || c == '\U{2029}'
  }

  predicate IsDigit(c: char) { '0' <= c <= '9' }

  predicate IsLetter(c: char) { 'a' <= c <= 'z' || 'A' <= c <= 'Z' }

  predicate IsQuote(c: char) { c == '"' || c == '\'' }

  predicate StartsWith(s: string, prefix: string) {
    prefix <= s
  }

  function Spaces(n: nat): (r: string)
    ensures |r| == n
    ensures forall k :: 0 <= k < n ==> r[k] == ' '
  {
    seq(n, _ => ' ')
  }

  function Newlines(n: nat): (r: string)
    ensures |r| == n
    ensures forall k :: 0 <= k < n ==> r[k] == '\n'
  {
    seq(n, _ => '\n')
  }

  /** The length of the match of `/^ * /`: leading blanks, tabs not included. */
  function LeadingSpaces(s: string): (n: nat)
    ensures n <= |s|
    ensures forall k :: 0 <= k < n ==> s[k] == ' '
    ensures n < |s| ==> s[n] != ' '
  {
    if s != "" && s[0] == ' ' then 1 + LeadingSpaces(s[1..]) else 0
  }

  function TrimStart(s: string): (r: string)
    ensures |r| <= |s|
    ensures r != "" ==> !IsSpace(r[0])
  {
    if s != "" && IsSpace(s[0]) then TrimStart(s[1..]) else s
  }

  function TrimEnd(s: string): (r: string)
    ensures r <= s
    ensures r != "" ==> !IsSpace(r[|r| - 1])
  {
    if s != "" && IsSpace(s[|s| - 1]) then TrimEnd(s[..|s| - 1]) else s
  }

  function Trim(s: string): (r: string)
    ensures |r| <= |s|
    ensures r != "" ==> !IsSpace(r[0]) && !IsSpace(r[|r| - 1])
  {
    TrimEnd(TrimStart(s))
  }

  /** `s.slice(k)`, where a negative `k` counts from the end. */
  function SliceFrom(s: string, k: int): string {
    if k > |s| then "" else if k >= 0 then s[k..] else if -k <= |s| then s[|s| + k..] else s
  }

  predicate OccursAt(s: string, pat: string, k: nat) {
    k + |pat| <= |s| && s[k..k + |pat|] == pat
  }

  /** `s.indexOf(pat, from)`: the first occurrence at or after `from`. */
  function IndexOf(s: string, pat: string, from: nat): (r: int)
    ensures r == -1 || (from <= r && OccursAt(s, pat, r))
    ensures forall k: nat :: from <= k && (r == -1 || k < r) ==> !OccursAt(s, pat, k)
    decreases |s| - from
  {
    if from + |pat| > |s| then -1
    else if OccursAt(s, pat, from) then from
    else IndexOf(s, pat, from + 1)
  }

  /** `s.split('\n')`. */
  function Split(s: string): (rows: seq<string>)
    ensures |rows| > 0
    ensures forall row :: row in rows ==> '\n' !in row
  {
    if s == "" then [""]
    else
      var rest := Split(s[1..]);
      if s[0] == '\n' then [""] + rest else [[s[0]] + rest[0]] + rest[1..]
  }

  /** `rows.join('\n')`. */
  function Join(rows: seq<string>): string
    requires |rows| > 0
  {
    if |rows| == 1 then rows[0] else rows[0] + "\n" + Join(rows[1..])
  }

  /** `parts.join(separator)`. */
  function JoinWith(parts: seq<string>, separator: string): string {
    if parts == [] then ""
    else if |parts| == 1 then parts[0]
    else parts[0] + (separator + JoinWith(parts[1..], separator))
  }

  /** Rows as the lines of a text, each ended by a newline. */
  function Unlines(rows: seq<string>): string {
    if rows == [] then "" else rows[0] + "\n" + Unlines(rows[1..])
  }

  // ------------------------------------------------------------ numbers

  function DigitRun(s: string): (n: nat)
    ensures n <= |s|
    ensures forall k :: 0 <= k < n ==> IsDigit(s[k])
    ensures n < |s| ==> !IsDigit(s[n])
  {
    if s != "" && IsDigit(s[0]) then 1 + DigitRun(s[1..]) else 0
  }

  function DigitsValue(s: string): nat
    requires forall c :: c in s ==> IsDigit(c)
  {
    if s == "" then 0
    else
      assert IsDigit(s[|s| - 1]);
      10 * DigitsValue(s[..|s| - 1]) + (s[|s| - 1] as int - '0' as int)
  }

  function NatText(n: nat): (r: string)
    ensures r != "" && forall c :: c in r ==> IsDigit(c)
  {
    if n < 10 then [(n + '0' as int) as char] else NatText(n / 10) + [(n % 10 + '0' as int) as char]
  }

  function IntText(n: int): string {
    if n < 0 then "-" + NatText(-n) else NatText(n)
  }

  // ------------------------------------------------------------ lemmas

  // What a loop has made of a sequence.

  /** Of a sequence to be made, `done` is made and `left` is left to make. */
  ghost predicate Reached<T>(whole: seq<T>, done: seq<T>, left: seq<T>) { whole == done + left }

  lemma ReachedStart<T>(whole: seq<T>)
    ensures Reached(whole, [], whole)
  {
  }

  lemma ReachedMore<T>(whole: seq<T>, done: seq<T>, more: seq<T>, left: seq<T>)
    requires Reached(whole, done, more + left)
    ensures Reached(whole, done + more, left)
  {
  }

  lemma ReachedEnd<T>(whole: seq<T>, done: seq<T>, left: seq<T>)
    requires Reached(whole, done, left)
    ensures whole == done + left && (left == [] ==> whole == done)
  {
  }

  lemma SpacesLead(n: nat, t: string)
    requires t == "" || t[0] != ' '
    ensures LeadingSpaces(Spaces(n) + t) == n
  {
    if n == 0 {
    } else {
      assert (Spaces(n) + t)[1..] == Spaces(n - 1) + t;
      SpacesLead(n - 1, t);
    }
  }

  lemma TrimStartIsSuffix(s: string)
    ensures var r := TrimStart(s); r == s[|s| - |r|..]
  {
  }

  lemma TrimSpaces(n: nat, t: string)
    requires t == "" || (!IsSpace(t[0]) && !IsSpace(t[|t| - 1]))
    ensures Trim(Spaces(n) + t) == t
  {
    TrimStartSpaces(n, t);
  }

  lemma TrimStartSpaces(n: nat, t: string)
    requires t == "" || !IsSpace(t[0])
    ensures TrimStart(Spaces(n) + t) == t
  {
    if n > 0 {
      assert (Spaces(n) + t)[1..] == Spaces(n - 1) + t;
      TrimStartSpaces(n - 1, t);
    } else {
      assert Spaces(0) + t == t;
    }
  }

  predicate AreSpaces(gap: string) {
    forall c :: c in gap ==> IsSpace(c)
  }

  lemma {:induction false} SpacesGo(gap: string, t: string)
    requires AreSpaces(gap) && (t == "" || !IsSpace(t[0]))
    ensures TrimStart(gap + t) == t
  {
    if gap == "" {
      assert gap + t == t;
    } else {
      assert gap[0] in gap && (gap + t)[1..] == gap[1..] + t;
      SpacesGo(gap[1..], t);
    }
  }

  lemma {:induction false} StartIsSpaces(t: string)
    ensures var gap := t[..|t| - |TrimStart(t)|]; AreSpaces(gap) && t == gap + TrimStart(t)
  {
    if t == "" || !IsSpace(t[0]) {
    } else {
      StartIsSpaces(t[1..]);
      var rest := t[1..][..|t| - 1 - |TrimStart(t[1..])|];
      assert t[..|t| - |TrimStart(t)|] == [t[0]] + rest;
    }
  }

  lemma {:induction false} SpacesEnd(t: string, gap: string)
    requires AreSpaces(gap) && (t == "" || !IsSpace(t[|t| - 1]))
    ensures TrimEnd(t + gap) == t
  {
    if gap == "" {
      assert t + gap == t;
    } else {
      assert gap[|gap| - 1] in gap && (t + gap)[..|t + gap| - 1] == t + gap[..|gap| - 1];
      SpacesEnd(t, gap[..|gap| - 1]);
    }
  }

  lemma {:induction false} EndIsSpaces(t: string)
    ensures AreSpaces(t[|TrimEnd(t)|..])
  {
    if t == "" || !IsSpace(t[|t| - 1]) {
    } else {
      EndIsSpaces(t[..|t| - 1]);
      var kept := |TrimEnd(t)|;
      assert t[kept..] == t[..|t| - 1][kept..] + [t[|t| - 1]];
    }
  }

  lemma SomeSpaces(rest: string)
    requires rest != "" && IsSpace(rest[0])
    ensures |TrimStart(rest)| < |rest|
  {
  }

  lemma SplitChar(c: char, t: string)
    ensures var rest := Split(t);
      Split([c] + t) == if c == '\n' then [""] + rest else [[c] + rest[0]] + rest[1..]
  {
    assert ([c] + t)[1..] == t;
  }

  lemma LongerFirst(c: char, head: seq<string>, tail: seq<string>)
    requires head != []
    ensures [[c] + (head + tail)[0]] + (head + tail)[1..] == [[c] + head[0]] + head[1..] + tail
    ensures [""] + (head + tail) == [""] + head + tail
  {
  }

  lemma {:induction false} SplitJoin(a: string, b: string)
    ensures Split(a + "\n" + b) == Split(a) + Split(b)
  {
    if a == "" {
      hide Split;
      assert a + "\n" + b == ['\n'] + b;
      SplitChar('\n', b);
      EmptySplits();
    } else {
      hide Split;
      assert a + "\n" + b == [a[0]] + (a[1..] + "\n" + b);
      assert a == [a[0]] + a[1..];
      SplitChar(a[0], a[1..] + "\n" + b);
      SplitChar(a[0], a[1..]);
      SplitJoin(a[1..], b);
      LongerFirst(a[0], Split(a[1..]), Split(b));
    }
  }

  lemma EmptySplits()
    ensures Split("") == [""]
  {
  }

  lemma {:induction false} SplitOneLine(a: string)
    requires '\n' !in a
    ensures Split(a) == [a]
  {
    if a == "" {
    } else {
      SplitOneLine(a[1..]);
      assert [a[0]] + a[1..] == a;
    }
  }

  lemma {:induction false} SplitUnlines(rows: seq<string>)
    requires forall row :: row in rows ==> '\n' !in row
    ensures Split(Unlines(rows)) == rows + [""]
  {
    if rows == [] {
    } else {
      hide Split;
      assert rows[0] in rows;
      SplitJoin(rows[0], Unlines(rows[1..]));
      SplitOneLine(rows[0]);
      SplitUnlines(rows[1..]);
      assert [rows[0]] + (rows[1..] + [""]) == rows + [""];
    }
  }

  /** Writing a number and reading its digits gives it back. */
  lemma {:induction false} NatDigits(n: nat)
    ensures var t := NatText(n); DigitRun(t) == |t| && DigitsValue(t) == n
  {
    var t := NatText(n);
    AllDigitsRun(t);
    if n < 10 {
      assert t[..0] == "";
      assert DigitsValue(t) == 10 * DigitsValue(t[..0]) + n;
    } else {
      NatDigits(n / 10);
      assert t[..|t| - 1] == NatText(n / 10);
    }
  }

  /** No two integers are written alike. */
  lemma IntTextDiffers(m: int, n: int)
    requires IntText(m) == IntText(n)
    ensures m == n
  {
    NatDigits(if m < 0 then -m else m);
    NatDigits(if n < 0 then -n else n);
    assert m < 0 ==> IntText(m)[1..] == NatText(-m);
    assert n < 0 ==> IntText(n)[1..] == NatText(-n);
    assert m >= 0 ==> IntText(m)[0] in NatText(m);
    assert n >= 0 ==> IntText(n)[0] in NatText(n);
  }

  lemma {:induction false} AllDigitsRun(t: string)
    requires forall c :: c in t ==> IsDigit(c)
    ensures DigitRun(t) == |t|
  {
    if t == "" {
    } else {
      assert t[0] in t;
      AllDigitsRun(t[1..]);
    }
  }
}
