/**
 Every form a character can take between double quotes (YAML 1.2.2, section 5.7),
 as the reader of scripts/check-kubernetes.mjs decodes it, and what it refuses.
 */
module YamlEscapes {
  import opened Text
  import opened YamlScalars
  import opened YamlPrinter
  import opened YamlTokens

  /** The letters that stand for one character each. */
  const ESCAPES: seq<(char, char)> := [
    ('0', '\0'), ('a', '\U{07}'), ('b', '\U{08}'), ('t', '\t'), ('\t', '\t'), ('n', '\n'), ('v', '\U{0B}'),
    ('f', '\U{0C}'), ('r', '\r'), ('e', '\U{1B}'), (' ', ' '), ('"', '"'), ('/', '/'), ('\\', '\\'),
    ('N', '\U{85}'), ('_', '\U{A0}'), ('L', '\U{2028}'), ('P', '\U{2029}')]

  /** A character as it is, by its letter, or by number in 2, 4 or 8 digits; or an
      escaped line break, which stands for nothing. */
  datatype Form = Raw(c: char) | Letter(letter: char, c: char) | Numbered(c: char, width: nat, upper: bool) | LineEnd

  function HexChar(d: nat, upper: bool): char
    requires d < 16
  {
    if d < 10 then (d + '0' as int) as char
    else if upper then (d - 10 + 'A' as int) as char
    else (d - 10 + 'a' as int) as char
  }

  /** A number in so many hexadecimal digits. */
  function HexText(n: nat, width: nat, upper: bool): (r: string)
    ensures |r| == width
  {
    if width == 0 then "" else HexText(n / 16, width - 1, upper) + [HexChar(n % 16, upper)]
  }

  function Reach(width: nat): nat { if width == 0 then 1 else 16 * Reach(width - 1) }

  function FormText(f: Form): string
    requires IsForm(f)
  {
    match f
    case Raw(c) => [c]
    case Letter(letter, _) => ['\\', letter]
    case Numbered(c, width, upper) =>
      ['\\', if width == 2 then 'x' else if width == 4 then 'u' else 'U'] + HexText(c as int, width, upper)
    case LineEnd => "\\\n"
  }

  predicate IsForm(f: Form) {
    match f
    case Raw(c) => c != '"' && c != '\\' && c != '\n'
    case Letter(letter, c) => (letter, c) in ESCAPES
    case Numbered(c, width, _) => width in {2, 4, 8} && c as int < Reach(width)
    case LineEnd => true
  }

  function FormMeaning(f: Form): string { if f.LineEnd? then "" else [f.c] }

  function FormsText(forms: seq<Form>): string
    requires forall k :: 0 <= k < |forms| ==> IsForm(forms[k])
  {
    if forms == [] then "" else FormText(forms[0]) + FormsText(forms[1..])
  }

  function FormsMeaning(forms: seq<Form>): string {
    if forms == [] then "" else FormMeaning(forms[0]) + FormsMeaning(forms[1..])
  }

  // --------------------------------------------------------------- one form

  lemma HexCharIs(d: nat, upper: bool)
    requires d < 16
    ensures IsHex(HexChar(d, upper)) && HexDigit(HexChar(d, upper)) == d
  {
  }

  lemma {:induction false} HexTextReads(n: nat, width: nat, upper: bool)
    requires n < Reach(width)
    ensures (forall c :: c in HexText(n, width, upper) ==> IsHex(c)) && HexValue(HexText(n, width, upper)) == n
  {
    hide IsHex, HexDigit, HexChar;
    if width == 0 {
    } else {
      HexTextReads(n / 16, width - 1, upper);
      HexCharIs(n % 16, upper);
      var t := HexText(n, width, upper);
      assert t[..width - 1] == HexText(n / 16, width - 1, upper) && t[width - 1] == HexChar(n % 16, upper);
      assert forall c :: c in t ==> c in t[..width - 1] || c == t[width - 1];
    }
  }

  lemma LetterReads(letter: char, c: char, rest: string)
    requires (letter, c) in ESCAPES
    ensures DoubleQuotedFrom(['\\', letter] + rest) == Prepend([c], DoubleQuotedFrom(rest))
  {
    LetterIs(letter, c);
    hide DoubleQuotedFrom, SimpleEscape;
    SimpleDecodes(letter, rest);
  }

  lemma LetterIs(letter: char, c: char)
    requires (letter, c) in ESCAPES
    ensures SimpleEscape(letter) == Some(c) && letter !in {'\n', 'x', 'u', 'U'}
  {
  }

  lemma NumberReads(letter: char, digits: string, c: char, rest: string)
    requires letter in {'x', 'u', 'U'} && |digits| == HexSize(letter)
    requires (forall d :: d in digits ==> IsHex(d)) && HexValue(digits) == c as int
    ensures DoubleQuotedFrom(['\\', letter] + digits + rest) == Prepend([c], DoubleQuotedFrom(rest))
  {
    hide Prepend, IsHex, HexValue;
    var t, end := ['\\', letter] + digits + rest, 2 + |digits|;
    assert t[2..end] == digits && t[end..] == rest;
    assert CodePoint(c as int) == Some(c);
  }

  lemma LineEndReads(rest: string)
    ensures DoubleQuotedFrom("\\\n" + rest) == DoubleQuotedFrom(rest)
  {
    assert ("\\\n" + rest)[2..] == rest;
  }

  lemma FormReads(f: Form, rest: string)
    requires IsForm(f)
    ensures DoubleQuotedFrom(FormText(f) + rest) == Prepend(FormMeaning(f), DoubleQuotedFrom(rest))
  {
    hide DoubleQuotedFrom, Prepend, HexText, HexValue, IsHex, Reach;
    match f
    case Raw(c) => RawDecodes(c, rest);
    case Letter(letter, c) => LetterReads(letter, c, rest);
    case Numbered(c, width, upper) =>
      HexTextReads(c as int, width, upper);
      NumberReads(if width == 2 then 'x' else if width == 4 then 'u' else 'U', HexText(c as int, width, upper), c, rest);
    case LineEnd =>
      LineEndReads(rest);
      PrependNothing("", DoubleQuotedFrom(rest));
  }

  // --------------------------------------------------------- the whole text

  /** A double-quoted text in any forms is read as the characters they stand for,
      whatever blank text or comment follows it. */
  lemma {:induction false} FormsRead(forms: seq<Form>, after: string)
    requires (forall k :: 0 <= k < |forms| ==> IsForm(forms[k])) && NothingAfter(after)
    ensures DoubleQuotedFrom(FormsText(forms) + ("\"" + after)) == Ok(FormsMeaning(forms))
  {
    hide DoubleQuotedFrom, NothingAfter, FormText, IsForm;
    if forms == [] {
      assert FormsText(forms) + ("\"" + after) == "\"" + after;
      QuoteCloses(after);
    } else {
      var rest := FormsText(forms[1..]) + ("\"" + after);
      assert FormsText(forms) + ("\"" + after) == FormText(forms[0]) + rest;
      FormReads(forms[0], rest);
      FormsRead(forms[1..], after);
    }
  }

  // ----------------------------------------------------------- what is refused

  lemma FormKeepsError(f: Form, rest: string, e: YamlError)
    requires IsForm(f) && DoubleQuotedFrom(rest) == Err(e)
    ensures DoubleQuotedFrom(FormText(f) + rest) == Err(e)
  {
    hide DoubleQuotedFrom, FormText, FormMeaning;
    FormReads(f, rest);
  }

  lemma {:induction false} FormsThenError(forms: seq<Form>, rest: string, e: YamlError)
    requires (forall k :: 0 <= k < |forms| ==> IsForm(forms[k])) && DoubleQuotedFrom(rest) == Err(e)
    ensures DoubleQuotedFrom(FormsText(forms) + rest) == Err(e)
  {
    hide DoubleQuotedFrom, FormText, IsForm;
    if forms == [] {
      assert FormsText(forms) + rest == rest;
    } else {
      FormsThenError(forms[1..], rest, e);
      FormKeepsError(forms[0], FormsText(forms[1..]) + rest, e);
      assert FormsText(forms) + rest == FormText(forms[0]) + (FormsText(forms[1..]) + rest);
    }
  }

  /** Refused: no closing quote, text after it, and a backslash before a letter that
      stands for nothing. */
  lemma FormsRefused(forms: seq<Form>, after: string, letter: char)
    requires forall k :: 0 <= k < |forms| ==> IsForm(forms[k])
    ensures DoubleQuotedFrom(FormsText(forms)) == Err(Unterminated)
    ensures !NothingAfter(after) ==> DoubleQuotedFrom(FormsText(forms) + ("\"" + after)) == Err(TextAfterQuoted)
    ensures letter !in {'\n', 'x', 'u', 'U'} && (forall pair :: pair in ESCAPES ==> pair.0 != letter) ==>
      DoubleQuotedFrom(FormsText(forms) + ("\\" + ([letter] + after))) == Err(UnknownEscape)
  {
    hide NothingAfter, FormsText;
    FormsThenError(forms, "", Unterminated);
    assert FormsText(forms) + "" == FormsText(forms);
    if !NothingAfter(after) {
      TextAfter(after);
      FormsThenError(forms, "\"" + after, TextAfterQuoted);
    }
    if letter !in {'\n', 'x', 'u', 'U'} && forall pair :: pair in ESCAPES ==> pair.0 != letter {
      UnknownLetter(letter);
      LetterRefused(letter, after);
      FormsThenError(forms, "\\" + ([letter] + after), UnknownEscape);
    }
  }

  lemma TextAfter(after: string)
    requires !NothingAfter(after)
    ensures DoubleQuotedFrom("\"" + after) == Err(TextAfterQuoted)
  {
    hide NothingAfter;
    assert ("\"" + after)[1..] == after;
  }

  lemma UnknownLetter(letter: char)
    requires forall pair :: pair in ESCAPES ==> pair.0 != letter
    ensures SimpleEscape(letter) == None
  {
    if SimpleEscape(letter).Some? {
      KnownLetter(letter);
    }
  }

  lemma KnownLetter(letter: char)
    requires SimpleEscape(letter).Some?
    ensures (letter, SimpleEscape(letter).value) in ESCAPES
  {
  }

  lemma LetterRefused(letter: char, after: string)
    requires letter !in {'\n', 'x', 'u', 'U'} && SimpleEscape(letter) == None
    ensures DoubleQuotedFrom("\\" + ([letter] + after)) == Err(UnknownEscape)
  {
    hide SimpleEscape;
    var t := "\\" + ([letter] + after);
    assert t[1] == letter;
  }

  /** A number that is cut short, has a digit that is none, or names no character. */
  lemma NumberRefused(letter: char, digits: string, after: string)
    requires letter in {'x', 'u', 'U'}
    ensures |digits| < HexSize(letter) ==> DoubleQuotedFrom(['\\', letter] + digits) == Err(BadHexEscape)
    ensures |digits| == HexSize(letter) && (exists d :: d in digits && !IsHex(d)) ==>
      DoubleQuotedFrom(['\\', letter] + (digits + after)) == Err(BadHexEscape)
    ensures |digits| == HexSize(letter) && (forall d :: d in digits ==> IsHex(d)) && HexValue(digits) >= 0x11_0000 ==>
      DoubleQuotedFrom(['\\', letter] + (digits + after)) == Err(BadCodePoint)
  {
    hide IsHex, HexValue;
    if |digits| == HexSize(letter) {
      assert (['\\', letter] + (digits + after))[2..2 + |digits|] == digits;
    }
  }
}
