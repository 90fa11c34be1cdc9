/**
 The lines the two YAML readers take for an entry (`KEY` of
 scripts/check-kubernetes.mjs, `MAP_ENTRY` of scripts/check-observability.mjs),
 stated by the texts that are one.
 */
module YamlKeys {
  import opened Text
  import opened YamlScalars
  import opened YamlPrinter
  import opened YamlTokens
  import opened YamlRows
  import O = ObservabilityYaml

  // --------------------------------------------------------- the strict reader

  /** A key without quotes: no colon after its first character, no sign in front but
      a dash that is no item's. */
  predicate IsPlainKeyText(key: string) {
    key != "" && !IsSpace(key[|key| - 1]) && ':' !in key[1..]
    && if key[0] == '-' then |key| > 1 && !IsSpace(key[1])
       else !IsSpace(key[0]) && key[0] !in "\"'#[]{},&*!|>%@`?"
  }

  /** What stands after an entry's colon. */
  predicate IsAfterColon(x: string) { x == "" || IsSpace(x[0]) }

  function ValueAfter(x: string): Option<string> {
    if x == "" then None else Some(OneLinePrefix(TrimStart(x)))
  }

  /** White space may stand between a key and its colon. */
  function EntryText(key: string, gap: string, x: string): string { key + (gap + (":" + x)) }

  lemma ColonEnds(key: string, gap: string, x: string)
    requires AreSpaces(gap) && IsAfterColon(x)
    ensures KeyEndingAt(EntryText(key, gap, x), |key|) == Some(KeyMatch(key, ValueAfter(x)))
  {
    hide TrimStart, IsSpace, OneLinePrefix;
    var t := EntryText(key, gap, x);
    assert t[|key|..] == gap + (":" + x) && t[..|key|] == key;
    ColonIsVisible();
    SpacesGo(gap, ":" + x);
    assert (":" + x)[1..] == x;
  }

  lemma LeastOf(t: string)
    requires t != "" && !IsQuote(t[0])
    ensures MatchKey(t)
         == if t[0] == '-' then if |t| > 1 && !IsSpace(t[1]) && t[1] != ':' then PlainKey(t, 2) else None
            else if !IsSpace(t[0]) && t[0] !in "\"'#[]{},&*!|>%@`?" then PlainKey(t, 1)
            else None
  {
    hide PlainKey, IsSpace;
    DashIsNoSpace();
  }

  lemma DashIsNoSpace()
    ensures !IsSpace('-') && !IsSpace(':')
  {
  }

  lemma FirstColon(key: string, gap: string, x: string, least: nat)
    requires IsPlainKeyText(key) && AreSpaces(gap) && 1 <= least <= |key|
    ensures IndexOf(EntryText(key, gap, x), ":", least) == |key| + |gap|
    ensures TrimEnd(EntryText(key, gap, x)[..|key| + |gap|]) == key
  {
    hide IndexOf, IsSpace, TrimEnd;
    var t, colon := EntryText(key, gap, x), |key| + |gap|;
    DashIsNoSpace();
    assert t[colon..colon + 1] == ":" && t[..colon] == key + gap;
    forall k | least <= k < colon ensures t[k] != ':' {
      if k < |key| {
        assert t[k] == key[1..][k - 1];
      } else {
        assert t[k] == gap[k - |key|] && gap[k - |key|] in gap;
      }
    }
    FirstAt(t, ":", least, colon);
    SpacesEnd(key, gap);
  }

  /** A plain key line is read as its key and the line's value. */
  lemma PlainKeyLine(key: string, gap: string, x: string)
    requires IsPlainKeyText(key) && AreSpaces(gap) && IsAfterColon(x)
    ensures MatchKey(EntryText(key, gap, x)) == Some(KeyMatch(key, ValueAfter(x)))
  {
    hide MatchKey, KeyEndingAt, TrimEnd, IsSpace, IndexOf, ValueAfter;
    var t, least := EntryText(key, gap, x), if key[0] == '-' then 2 else 1;
    assert t[0] == key[0] && (|key| > 1 ==> t[1] == key[1] && key[1] == key[1..][0]);
    QuoteIsNoStart(key);
    LeastOf(t);
    FirstColon(key, gap, x, least);
    ColonEnds(key, gap, x);
  }

  lemma QuoteIsNoStart(key: string)
    requires IsPlainKeyText(key)
    ensures !IsQuote(key[0])
  {
  }

  lemma PlainKeyHas(t: string) returns (gap: string, x: string)
    requires t != "" && !IsQuote(t[0]) && MatchKey(t).Some?
    ensures var found := MatchKey(t).value;
      IsPlainKeyText(found.key) && AreSpaces(gap) && IsAfterColon(x) && t == EntryText(found.key, gap, x)
      && found.rest == ValueAfter(x)
  {
    hide MatchKey, IsSpace, TrimEnd, TrimStart, IndexOf, OneLinePrefix;
    LeastOf(t);
    var least := if t[0] == '-' then 2 else 1;
    var colon := IndexOf(t, ":", least);
    var key := TrimEnd(t[..colon]);
    gap, x := t[|key|..colon], t[colon + 1..];
    assert t[colon..colon + 1] == ":" && t[colon] == ':';
    EndIsSpaces(t[..colon]);
    assert t[..colon][|key|..] == gap;
    KeyKeepsStart(t[..colon], least);
    NoColonBefore(t, least, colon, key);
    assert t[|key|..] == gap + (":" + x);
    ColonIsVisible();
    SpacesGo(gap, ":" + x);
    assert (":" + x)[1..] == x;
    assert t == key + t[|key|..];
  }

  lemma KeyKeepsStart(s: string, least: nat)
    requires 1 <= least <= |s| && !IsSpace(s[least - 1])
    ensures |TrimEnd(s)| >= least
  {
    hide IsSpace, TrimEnd;
    EndIsSpaces(s);
    var kept := |TrimEnd(s)|;
    assert forall k :: kept <= k < |s| ==> s[k] == s[kept..][k - kept] && s[kept..][k - kept] in s[kept..];
  }

  lemma NoColonBefore(t: string, least: nat, colon: nat, key: string)
    requires 1 <= least <= colon < |t| && key <= t[..colon] && key != "" && IndexOf(t, ":", least) == colon
    requires least == 1 || (least == 2 && t[1] != ':')
    ensures ':' !in key[1..]
  {
    hide IndexOf;
    forall k | 1 <= k < |key| ensures key[k] != ':' {
      assert key[k] == t[k];
      if k >= least {
        assert !OccursAt(t, ":", k);
        assert t[k..k + 1] == [t[k]];
      }
    }
  }

  /** A line that starts with no quote is an entry exactly when it is a plain key,
      white space or none, a colon, and nothing or white space and a value. */
  lemma PlainKeyExactly(t: string, key: string, rest: Option<string>)
    requires t == "" || !IsQuote(t[0])
    ensures MatchKey(t) == Some(KeyMatch(key, rest)) <==>
      exists gap, x ::
        IsPlainKeyText(key) && AreSpaces(gap) && IsAfterColon(x) && t == EntryText(key, gap, x) && rest == ValueAfter(x)
  {
    hide MatchKey, EntryText, IsPlainKeyText, IsAfterColon, ValueAfter, AreSpaces;
    if MatchKey(t) == Some(KeyMatch(key, rest)) {
      NothingMatches();
      var gap, x := PlainKeyHas(t);
    }
    if gap, x :|
      IsPlainKeyText(key) && AreSpaces(gap) && IsAfterColon(x) && t == EntryText(key, gap, x) && rest == ValueAfter(x)
    {
      PlainKeyLine(key, gap, x);
    }
  }

  lemma NothingMatches()
    ensures MatchKey("") == None
  {
  }

  lemma {:induction false} DoubledSpan(s: string, x: string)
    requires x == "" || x[0] != '\''
    ensures SingleQuotedSpan(DoubleQuotes(s) + ("'" + x)) == Some(|DoubleQuotes(s)| + 1)
  {
    if s == "" {
      assert "" + ("'" + x) == "'" + x;
    } else if s[0] == '\'' {
      var rest := DoubleQuotes(s[1..]) + ("'" + x);
      assert DoubleQuotes(s) + ("'" + x) == "''" + rest && ("''" + rest)[2..] == rest;
      DoubledSpan(s[1..], x);
    } else {
      var rest := DoubleQuotes(s[1..]) + ("'" + x);
      assert DoubleQuotes(s) + ("'" + x) == [s[0]] + rest && ([s[0]] + rest)[1..] == rest;
      DoubledSpan(s[1..], x);
    }
  }

  lemma SpanEnds(token: string, rest: string)
    requires token != "" && IsQuote(token[0])
    requires (if token[0] == '"' then DoubleQuotedSpan((token + rest)[1..]) else SingleQuotedSpan((token + rest)[1..]))
          == Some(|token| - 1)
    ensures MatchKey(token + rest) == KeyEndingAt(token + rest, |token|)
  {
    hide DoubleQuotedSpan, SingleQuotedSpan, KeyEndingAt;
  }

  lemma GapIsNoQuote(gap: string, x: string)
    requires AreSpaces(gap)
    ensures (gap + (":" + x))[0] != '\''
  {
    if gap != "" {
      assert gap[0] in gap;
    }
  }

  /** A key in quotes is read as itself, whatever stands in it: with its escapes in
      double quotes, with its quotes doubled in single ones. */
  lemma QuotedKeyLine(key: string, gap: string, x: string)
    requires AreSpaces(gap) && IsAfterColon(x)
    ensures MatchKey(EntryText(Quoted(key), gap, x)) == Some(KeyMatch(Quoted(key), ValueAfter(x)))
    ensures OneLine(Quoted(key)) == Ok(Str(key))
    ensures '\n' !in key ==>
      var token := "'" + (DoubleQuotes(key) + "'");
      MatchKey(EntryText(token, gap, x)) == Some(KeyMatch(token, ValueAfter(x))) && OneLine(token) == Ok(Str(key))
  {
    hide MatchKey, KeyEndingAt, DoubleQuotedSpan, SingleQuotedSpan, Escape, DoubleQuotes, OneLine, ValueAfter;
    var rest := gap + (":" + x);
    assert (Quoted(key) + rest)[1..] == Escape(key) + "\"" + rest;
    EscapedSpan(key, rest);
    SpanEnds(Quoted(key), rest);
    ColonEnds(Quoted(key), gap, x);
    QuotedReads(key);
    if '\n' !in key {
      var token := "'" + (DoubleQuotes(key) + "'");
      assert (token + rest)[1..] == DoubleQuotes(key) + ("'" + rest);
      GapIsNoQuote(gap, x);
      DoubledSpan(key, rest);
      SpanEnds(token, rest);
      ColonEnds(token, gap, x);
      DoubledReads(key);
    }
  }

  lemma DoubledReads(s: string)
    requires '\n' !in s
    ensures OneLine("'" + (DoubleQuotes(s) + "'")) == Ok(Str(s))
  {
    hide SingleQuotedFrom, DoubleQuotes;
    var t := "'" + (DoubleQuotes(s) + "'");
    assert t[1..] == DoubleQuotes(s) + "'" + "";
    DoublingDecodes(s, "");
  }

  // -------------------------------------------------------- the smaller reader

  /** A word of letters, digits, underscores, points and dashes that starts with a
      letter or an underscore, or text in quotes without that quote in it. */
  ghost predicate IsEntryKey(key: string) {
    (key != "" && (IsLetter(key[0]) || key[0] == '_')
     && forall c :: c in key ==> IsLetter(c) || IsDigit(c) || c == '_' || c == '.' || c == '-')
    || (exists q, inner :: IsQuote(q) && q !in inner && key == [q] + (inner + [q]))
  }

  /** After the colon: nothing, or white space and a value on the same line. */
  ghost predicate IsEntryTail(x: string, rest: Option<string>) {
    (x == "" && rest == None)
    || (exists gap, v ::
          gap != "" && AreSpaces(gap) && (v == "" || !IsSpace(v[0])) && (forall c :: c in v ==> !IsLineTerminator(c))
          && x == gap + v && rest == Some(v))
  }

  lemma {:induction false} WordRuns(a: string, x: string)
    requires (forall c :: c in a ==> O.IsEntryChar(c)) && x != "" && x[0] == ':'
    ensures O.EntryRun(a + x) == |a|
  {
    if a == "" {
      assert a + x == x;
    } else {
      assert a[0] in a && (a + x)[1..] == a[1..] + x;
      WordRuns(a[1..], x);
    }
  }

  lemma KeyLengthIs(key: string, x: string)
    requires IsEntryKey(key) && x != "" && x[0] == ':'
    ensures O.KeyLength(key + x) == Some(|key|)
  {
    hide IndexOf;
    if q, inner :| IsQuote(q) && q !in inner && key == [q] + (inner + [q]) {
      var t := key + x;
      assert t[|inner| + 1..|inner| + 2] == [q];
      assert forall k :: 1 <= k < |inner| + 1 ==> t[k] == inner[k - 1] && inner[k - 1] in inner;
      FirstAt(t, [q], 1, |inner| + 1);
    } else {
      assert (key + x)[1..] == key[1..] + x && forall c :: c in key[1..] ==> c in key;
      WordRuns(key[1..], x);
    }
  }

  lemma LengthIsKey(t: string)
    requires O.KeyLength(t).Some?
    ensures IsEntryKey(t[..O.KeyLength(t).value])
  {
    hide IndexOf, O.EntryRun;
    var n := O.KeyLength(t).value;
    var key := t[..n];
    if IsQuote(t[0]) {
      QuotedLength(t);
    } else {
      forall c | c in key ensures O.IsEntryChar(c) {
        var k :| 0 <= k < n && key[k] == c;
        assert k > 0 ==> t[k] == t[1..][k - 1];
      }
    }
  }

  lemma QuotedLength(t: string)
    requires t != "" && IsQuote(t[0]) && O.KeyLength(t).Some?
    ensures IsEntryKey(t[..O.KeyLength(t).value])
  {
    hide IndexOf;
    var q, n := t[0], O.KeyLength(t).value;
    var inner := t[1..n - 1];
    assert t[n - 1..n] == [q] && t[n - 1] == q;
    forall k | 0 <= k < |inner| ensures inner[k] != q {
      assert !OccursAt(t, [q], k + 1);
      assert t[k + 1..k + 2] == [inner[k]];
    }
    assert t[..n] == [q] + (inner + [q]);
  }

  lemma TailExactly(x: string, rest: Option<string>)
    ensures IsEntryTail(x, rest) <==>
      if x == "" then rest == None
      else IsSpace(x[0]) && (forall c :: c in TrimStart(x) ==> !IsLineTerminator(c)) && rest == Some(TrimStart(x))
  {
    hide TrimStart, IsSpace, IsLineTerminator;
    if gap, v :| gap != "" && AreSpaces(gap) && (v == "" || !IsSpace(v[0])) && x == gap + v && rest == Some(v) {
      SpacesGo(gap, v);
      assert gap[0] in gap;
    }
    if x != "" && IsSpace(x[0]) {
      StartIsSpaces(x);
      SomeSpaces(x);
      assert x == x[..|x| - |TrimStart(x)|] + TrimStart(x);
    }
  }

  /** A line is an entry of the smaller reader exactly when it is a key, a colon, and
      nothing or white space and a value. */
  lemma EntryExactly(t: string, key: string, rest: Option<string>)
    ensures O.MatchEntry(t) == Some(KeyMatch(key, rest)) <==>
      exists x :: IsEntryKey(key) && IsEntryTail(x, rest) && t == key + (":" + x)
  {
    hide O.KeyLength, IsEntryKey, IsEntryTail, TrimStart, IsSpace;
    if O.MatchEntry(t) == Some(KeyMatch(key, rest)) {
      var n := O.KeyLength(t).value;
      var x := t[n + 1..];
      LengthIsKey(t);
      TailExactly(x, rest);
      assert t == key + (":" + x);
    }
    if x :| IsEntryKey(key) && IsEntryTail(x, rest) && t == key + (":" + x) {
      KeyLengthIs(key, ":" + x);
      TailExactly(x, rest);
      assert t[|key| + 1..] == x && t[..|key|] == key;
    }
  }
}
