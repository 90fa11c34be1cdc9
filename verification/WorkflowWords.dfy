/**
 The words the workflow reader and the rules of scripts/check-ci-governance.mjs
 look for, each stated by the texts that have it.
 */
module WorkflowWords {
  import opened Text
  import opened Workflow
  import opened WorkflowRoundTrip
  import opened StackRules

  /** A blank line is white space alone. */
  lemma BlankExactly(t: string)
    ensures IsBlank(t) <==> AreSpaces(t)
  {
    hide TrimStart;
    StartIsSpaces(t);
    if AreSpaces(t) {
      SpacesGo(t, "");
      assert t + "" == t;
    }
  }

  /** A line of content starts, after white space, with a character that is no
      comment sign; its indentation is that white space. */
  lemma ContentExactly(gap: string, t: string)
    requires AreSpaces(gap) && (t == "" || !IsSpace(t[0]))
    ensures IsContent(gap + t) <==> t != "" && t[0] != '#'
    ensures Indent(gap + t) == |gap|
  {
    hide TrimStart;
    SpacesGo(gap, t);
  }

  /** A line that is one word has nothing but white space after it. */
  lemma WordLineExactly(line: string, word: string)
    ensures IsWordLine(line, word) <==> exists gap :: AreSpaces(gap) && line == word + gap
  {
    hide IsBlank;
    if IsWordLine(line, word) {
      BlankExactly(line[|word|..]);
      assert line == word + line[|word|..];
    }
    if gap :| AreSpaces(gap) && line == word + gap {
      BlankExactly(gap);
      assert line[|word|..] == gap;
    }
  }

  // ------------------------------------------------------------------- a key

  /** A key line: a name, a colon, and then nothing, or white space and a value on
      the same line. */
  ghost predicate IsKeyText(t: string, key: string, value: string) {
    IsName(key)
    && ((t == key + ":" && value == "")
        || (exists gap :: gap != "" && AreSpaces(gap) && t == key + (":" + (gap + value))
                          && (value == "" || !IsSpace(value[0])) && IsOneLine(value)))
  }

  lemma {:induction false} RunIsName(t: string)
    ensures forall c :: c in t[..NameRun(t)] ==> IsNameChar(c)
    ensures NameRun(t) < |t| ==> !IsNameChar(t[NameRun(t)])
  {
    if t == "" || !IsNameChar(t[0]) {
    } else {
      RunIsName(t[1..]);
      assert t[..NameRun(t)] == [t[0]] + t[1..][..NameRun(t[1..])];
    }
  }

  lemma MatchedIsKeyText(t: string)
    requires MatchKey(t).Some?
    ensures IsKeyText(t, MatchKey(t).value.key, MatchKey(t).value.value)
  {
    hide NameRun, TrimStart, IsName, IsSpace, IsOneLine, HasTerminator, IsNameStart;
    var n := 1 + NameRun(t[1..]);
    var key, rest := t[..n], t[n + 1..];
    RunMakesName(t);
    assert t == key + (":" + rest);
    OneLineIs(TrimStart(rest));
    NothingIsOneLine();
    if rest != "" {
      StartIsSpaces(rest);
      SomeSpaces(rest);
      assert t == key + (":" + (rest[..|rest| - |TrimStart(rest)|] + TrimStart(rest)));
    }
  }

  lemma RunMakesName(t: string)
    requires t != "" && IsNameStart(t[0])
    ensures IsName(t[..1 + NameRun(t[1..])])
  {
    hide NameRun, IsNameChar, IsNameStart;
    var n := 1 + NameRun(t[1..]);
    RunIsName(t[1..]);
    StartOfName(t[0]);
    assert t[..n] == [t[0]] + t[1..][..n - 1];
  }

  lemma OneLineIs(v: string)
    ensures IsOneLine(v) <==> !HasTerminator(v)
  {
  }

  lemma NothingIsOneLine()
    ensures IsOneLine("")
  {
  }

  lemma StartOfName(c: char)
    ensures IsNameStart(c) ==> IsNameChar(c)
  {
  }

  lemma KeyTextMatches(t: string, key: string, value: string)
    requires IsKeyText(t, key, value)
    ensures MatchKey(t) == Some(KeyLine(key, value))
  {
    if t == key + ":" && value == "" {
      BareKeyMatches(key);
    } else {
      var gap :| gap != "" && AreSpaces(gap) && t == key + (":" + (gap + value))
                 && (value == "" || !IsSpace(value[0])) && IsOneLine(value);
      hide NameRun, TrimStart, IsNameStart;
      var x := ":" + (gap + value);
      assert forall c :: c in key[1..] ==> c in key;
      NameRuns(key[1..], x);
      SpacesGo(gap, value);
      assert gap[0] in gap;
      assert t[1..] == key[1..] + x && t[|key|] == ':' && t[|key| + 1..] == gap + value && t[..|key|] == key;
    }
  }

  /** The key pattern takes exactly the key lines, with their own key and value. */
  lemma KeyExactly(t: string, key: string, value: string)
    ensures MatchKey(t) == Some(KeyLine(key, value)) <==> IsKeyText(t, key, value)
  {
    hide MatchKey, IsKeyText;
    if MatchKey(t) == Some(KeyLine(key, value)) {
      MatchedIsKeyText(t);
    }
    if IsKeyText(t, key, value) {
      KeyTextMatches(t, key, value);
    }
  }

  /** A value in a pair of like quotes loses them, any other is trimmed. */
  lemma UnquoteExactly(v: string)
    ensures Unquote(v) == Trim(v)
         || (exists quote, inner :: IsQuote(quote) && IsOneLine(inner) && Trim(v) == [quote] + inner + [quote] && Unquote(v) == inner)
    ensures forall quote, inner ::
      IsQuote(quote) && IsOneLine(inner) && Trim(v) == [quote] + inner + [quote] ==> Unquote(v) == inner
  {
    hide Trim;
    var t := Trim(v);
    if Unquote(v) != t {
      var inner := t[1..|t| - 1];
      assert IsQuote(t[0]) && t == [t[0]] + inner + [t[0]] && Unquote(v) == inner && IsOneLine(inner);
    }
    forall quote, inner | IsQuote(quote) && IsOneLine(inner) && t == [quote] + inner + [quote] ensures Unquote(v) == inner {
      assert t[1..|t| - 1] == inner;
    }
  }

  // --------------------------------------------------------------- the rules

  /** The conditions that are allowed, by the name of the step. */
  lemma AllowedExactly(name: string, condition: string)
    ensures AllowedCondition(Some(name)) == Some(condition) <==>
      (name, condition) in {("Collect container logs", "failure()"), ("Upload container logs", "failure()"),
                            ("Tear the stack down", "always()")}
    ensures AllowedCondition(None) == None
  {
  }

  /** An expression is taken out of its braces, its white space left out; a text
      without them is its own. */
  lemma ExpressionReads(gap: string, e: string, after: string)
    requires AreSpaces(gap) && AreSpaces(after) && e != "" && !IsSpace(e[0]) && !IsSpace(e[|e| - 1]) && IsOneLine(e)
    ensures ExpressionOf("${{" + (gap + (e + (after + "}}")))) == e
    ensures !StartsWith(e, "${{") ==> ExpressionOf(e) == e
  {
    hide TrimStart, TrimEnd;
    var inner := gap + (e + after);
    var t := "${{" + (gap + (e + (after + "}}")));
    assert t == "${{" + (inner + "}}");
    assert t[..3] == "${{" && t[|t| - 2..] == "}}" && t[3..|t| - 2] == inner;
    SpacesGo(gap, e + after);
    SpacesEnd(e, after);
  }

  /** A line sets a key when the key starts it, after white space, or after white
      space, a dash and white space. */
  ghost predicate OpensWith(line: string, key: string) {
    exists gap, rest :: AreSpaces(gap) && line == gap + (key + rest)
  }

  ghost predicate DashOpensWith(line: string, key: string) {
    exists gap, after, rest ::
      AreSpaces(gap) && after != "" && AreSpaces(after) && line == gap + ("-" + (after + (key + rest)))
  }

  lemma PrefixSplits(t: string, key: string)
    ensures StartsWith(t, key) <==> exists rest :: t == key + rest
  {
    if StartsWith(t, key) {
      assert t == key + t[|key|..];
    }
  }

  lemma OpeningIs(t: string, key: string)
    requires key != "" && !IsSpace(key[0])
    ensures StartsWith(TrimStart(t), key) <==> OpensWith(t, key)
  {
    hide TrimStart, StartsWith;
    StartIsSpaces(t);
    PrefixSplits(TrimStart(t), key);
    if StartsWith(TrimStart(t), key) {
      var rest :| TrimStart(t) == key + rest;
      assert t == t[..|t| - |TrimStart(t)|] + (key + rest);
    }
    if gap, rest :| AreSpaces(gap) && t == gap + (key + rest) {
      SpacesGo(gap, key + rest);
    }
  }

  lemma DashIsVisible()
    ensures !IsSpace('-')
  {
  }

  lemma SetsKeyExactly(line: string, key: string)
    requires key != "" && !IsSpace(key[0]) && key[0] != '-'
    ensures SetsKey(line, key) <==> OpensWith(line, key) || DashOpensWith(line, key)
  {
    hide TrimStart, StartsWith, OpensWith;
    var t := TrimStart(line);
    StartIsSpaces(line);
    OpeningIs(line, key);
    if |t| > 1 && t[0] == '-' && IsSpace(t[1]) {
      OpeningIs(t[1..], key);
      if StartsWith(TrimStart(t[1..]), key) {
        var gap, after, rest := DashParts(line, key);
      }
    }
    if gap, after, rest :| AreSpaces(gap) && after != "" && AreSpaces(after) && line == gap + ("-" + (after + (key + rest))) {
      DashIsVisible();
      SpacesGo(gap, "-" + (after + (key + rest)));
      assert after[0] in after && t[1] == after[0] && t[1..] == after + (key + rest);
      SpacesGo(after, key + rest);
      PrefixSplits(key + rest, key);
    }
  }

  lemma DashParts(line: string, key: string) returns (gap: string, after: string, rest: string)
    requires var t := TrimStart(line); |t| > 1 && t[0] == '-' && IsSpace(t[1]) && StartsWith(TrimStart(t[1..]), key)
    ensures AreSpaces(gap) && after != "" && AreSpaces(after) && line == gap + ("-" + (after + (key + rest)))
  {
    hide TrimStart, StartsWith;
    var t := TrimStart(line);
    StartIsSpaces(line);
    StartIsSpaces(t[1..]);
    SomeSpaces(t[1..]);
    PrefixSplits(TrimStart(t[1..]), key);
    var more :| TrimStart(t[1..]) == key + more;
    gap, after, rest := line[..|line| - |t|], t[1..][..|t| - 1 - |TrimStart(t[1..])|], more;
    assert t == "-" + t[1..];
  }
}
