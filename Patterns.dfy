/** The pattern library of the CoffeeScript mode: character classes, hand-written
    matchers for the mode's regular expressions, and the precedence cascade that
    tokenBase applies to the rest of a line once leading whitespace is gone.

    Every matcher looks at the line `s` from index `i` (the regexes are all anchored
    with `^` on the slice that starts at the stream position) and returns the length
    of the match, 0 meaning "no match": none of these patterns can match the empty
    string. */
module Patterns {

  datatype Option<T> = None | Some(value: T)

  // ----- character classes -----

  predicate IsDigit(c: char) { '0' <= c <= '9' }

  predicate IsHexDigit(c: char) { IsDigit(c) || 'a' <= c <= 'f' || 'A' <= c <= 'F' }

  predicate IsLetter(c: char) { 'a' <= c <= 'z' || 'A' <= c <= 'Z' }

  /** JavaScript's `\w`. */
  predicate IsWordChar(c: char) { IsLetter(c) || IsDigit(c) || c == '_' }

  /** `[_A-Za-z$]` */
  predicate IsIdentStart(c: char) { IsLetter(c) || c == '_' || c == '$' }

  /** `[_A-Za-z$0-9]` */
  predicate IsIdentChar(c: char) { IsIdentStart(c) || IsDigit(c) }

  /** JavaScript's `[\s ]`, the class StringStream.eatSpace skips. */
  predicate IsSpace(c: char) {
    c == ' ' || c == '\t' || c == '\n' || c == '\r' || c == '\U{B}' || c == '\U{C}'
    || c == '\U{A0}' || c == '\U{1680}' || '\U{2000}' <= c <= '\U{200A}'
    || c == '\U{2028}' || c == '\U{2029}' || c == '\U{202F}' || c == '\U{205F}'
    || c == '\U{3000}' || c == '\U{FEFF}'
  }

  /** The characters a regex `.` does not match. */
  predicate IsLineTerminator(c: char) {
    c == '\n' || c == '\r' || c == '\U{2028}' || c == '\U{2029}'
  }

  /** Length of the longest run of characters satisfying `p` from index `i`. */
  function Run(s: string, i: nat, p: char -> bool): (n: nat)
    requires i <= |s|
    ensures i + n <= |s|
    ensures forall k :: i <= k < i + n ==> p(s[k])
    ensures i + n == |s| || !p(s[i + n])
    decreases |s| - i
  {
    if i < |s| && p(s[i]) then 1 + Run(s, i + 1, p) else 0
  }

  // ----- numbers (source lines 58-88) -----

  function OptMinus(s: string, i: nat): nat
  {
    if i < |s| && s[i] == '-' then 1 else 0
  }

  /** Every character of `s[a..b]` is a digit. */
  predicate Digits(s: string, a: nat, b: nat)
    requires a <= b <= |s|
  {
    forall k :: a <= k < b ==> IsDigit(s[k])
  }

  /** No digit stands at index `j`: a run of digits that reaches `j` ends there. */
  predicate NoDigitAt(s: string, j: nat)
    requires j <= |s|
  {
    j == |s| || !IsDigit(s[j])
  }

  /** The index just past the run of digits that starts at `j`: what `\d*`
      takes there. */
  function DigitsEnd(s: string, j: nat): (r: nat)
    requires j <= |s|
    ensures j <= r <= |s| && Digits(s, j, r) && NoDigitAt(s, r)
    decreases |s| - j
  {
    if j < |s| && IsDigit(s[j]) then DigitsEnd(s, j + 1) else j
  }

  /** An exponent starts at `i`: an `e` (or, with `anyCase`, an `E`), an
      optional sign, and a digit. */
  predicate ExponentAt(s: string, i: nat, anyCase: bool)
  {
    && i < |s| && (s[i] == 'e' || (anyCase && s[i] == 'E'))
    && ((i + 1 < |s| && IsDigit(s[i + 1]))
        || (i + 2 < |s| && (s[i + 1] == '+' || s[i + 1] == '-') && IsDigit(s[i + 2])))
  }

  /** `(e[\+\-]?\d+)?`; with `anyCase` also `E` (the `i` flag). */
  function Exponent(s: string, i: nat, anyCase: bool): (n: nat)
    requires i <= |s|
    ensures i + n <= |s|
    ensures n > 0 <==> ExponentAt(s, i, anyCase)
    // a match is the letter, an optional sign and the whole run of digits
    ensures n > 0 ==> && n >= 2 && (IsDigit(s[i + 1]) || s[i + 1] == '+' || s[i + 1] == '-')
                      && Digits(s, i + 2, i + n) && IsDigit(s[i + n - 1]) && NoDigitAt(s, i + n)
  {
    if i < |s| && (s[i] == 'e' || (anyCase && s[i] == 'E')) then
      var sign := if i + 1 < |s| && (s[i + 1] == '+' || s[i + 1] == '-') then 1 else 0;
      var e := DigitsEnd(s, i + 1 + sign);
      if e > i + 1 + sign then e - i else 0
    else 0
  }

  /** `-?[0-9\.]`, tested without consuming. */
  predicate NumberStart(s: string, i: nat)
  {
    var m := i + OptMinus(s, i);
    m < |s| && (IsDigit(s[m]) || s[m] == '.')
  }

  /** `-?\d*\.\d+(e[\+\-]?\d+)?` with the `i` flag. */
  function FloatA(s: string, i: nat): (n: nat)
    requires i <= |s|
    ensures i + n <= |s|
    // it matches exactly when the digits after the optional minus are
    // followed by a dot and a digit
    ensures n > 0 <==> var d := DigitsEnd(s, i + OptMinus(s, i)); d + 1 < |s| && s[d] == '.' && IsDigit(s[d + 1])
    ensures n > 0 ==> NumberStart(s, i) && n >= 2 && IsDigit(s[i + n - 1]) && NoDigitAt(s, i + n)
    // the fraction is taken whole, and then an exponent whole if one starts
    // right after it
    ensures n > 0 ==> var f := DigitsEnd(s, DigitsEnd(s, i + OptMinus(s, i)) + 1);
                      i + n == f + Exponent(s, f, true)
  {
    var m := i + OptMinus(s, i);
    var d := DigitsEnd(s, m);
    if d + 1 < |s| && s[d] == '.' && IsDigit(s[d + 1]) then
      assert NumberStart(s, i) by {
        if d > m { assert Digits(s, m, d); }
      }
      var f := DigitsEnd(s, d + 1);
      var x := Exponent(s, f, true);
      assert IsDigit(s[f + x - 1]) && NoDigitAt(s, f + x) by {
        if x == 0 { assert Digits(s, d + 1, f); }
      }
      f + x - i
    else 0
  }

  /** `-?\d+\.\d*` */
  function FloatB(s: string, i: nat): (n: nat)
    requires i <= |s|
    ensures i + n <= |s|
    // it matches exactly when one or more digits after the optional minus
    // are followed by a dot
    ensures n > 0 <==> var m := i + OptMinus(s, i); var d := DigitsEnd(s, m); m < d < |s| && s[d] == '.'
    ensures n > 0 ==> NumberStart(s, i) && IsDigit(s[i + OptMinus(s, i)]) && n >= 2
    // it takes the digits, the dot and every digit after the dot
    ensures n > 0 ==> i + n == DigitsEnd(s, DigitsEnd(s, i + OptMinus(s, i)) + 1)
  {
    var m := i + OptMinus(s, i);
    var d := DigitsEnd(s, m);
    if m < d < |s| && s[d] == '.' then DigitsEnd(s, d + 1) - i
    else 0
  }

  /** `-?\.\d+` */
  function FloatC(s: string, i: nat): (n: nat)
    requires i <= |s|
    ensures i + n <= |s|
    // it matches exactly when a dot and a digit follow the optional minus
    ensures n > 0 <==> var m := i + OptMinus(s, i); m + 1 < |s| && s[m] == '.' && IsDigit(s[m + 1])
    // it takes the dot and every digit after it
    ensures n > 0 ==> NumberStart(s, i) && n >= OptMinus(s, i) + 2
    ensures n > 0 ==> i + n == DigitsEnd(s, i + OptMinus(s, i) + 1)
  {
    var m := i + OptMinus(s, i);
    if m + 1 < |s| && s[m] == '.' && IsDigit(s[m + 1]) then DigitsEnd(s, m + 1) - i
    else 0
  }

  /** `-?0x[0-9a-f]+` with the `i` flag. */
  function HexInt(s: string, i: nat): (n: nat)
    requires i <= |s|
    ensures i + n <= |s|
    // it matches exactly when `0x` or `0X` and a hex digit follow the
    // optional minus
    ensures n > 0 <==> var m := i + OptMinus(s, i);
                       && m + 2 < |s| && s[m] == '0' && (s[m + 1] == 'x' || s[m + 1] == 'X')
                       && IsHexDigit(s[m + 2])
    // it takes every hex digit that follows
    ensures n > 0 ==> NumberStart(s, i) && n >= OptMinus(s, i) + 3
    ensures n > 0 ==> forall k :: i + OptMinus(s, i) + 2 <= k < i + n ==> IsHexDigit(s[k])
    ensures n > 0 ==> i + n == |s| || !IsHexDigit(s[i + n])
  {
    var m := i + OptMinus(s, i);
    if m + 2 < |s| && s[m] == '0' && (s[m + 1] == 'x' || s[m + 1] == 'X') && IsHexDigit(s[m + 2])
    then m + 2 + Run(s, m + 2, IsHexDigit) - i
    else 0
  }

  /** `-?[1-9]\d*(e[\+\-]?\d+)?` (no `i` flag: lower-case `e` only). */
  function DecimalInt(s: string, i: nat): (n: nat)
    requires i <= |s|
    ensures i + n <= |s|
    // it matches exactly at a non-zero digit after the optional minus
    ensures n > 0 <==> var m := i + OptMinus(s, i); m < |s| && '1' <= s[m] <= '9'
    ensures n > 0 ==> NumberStart(s, i) && IsDigit(s[i + n - 1]) && NoDigitAt(s, i + n)
    // it takes the digits whole, and then an exponent whole if one starts
    // right after them
    ensures n > 0 ==> var e := DigitsEnd(s, i + OptMinus(s, i) + 1); i + n == e + Exponent(s, e, false)
  {
    var m := i + OptMinus(s, i);
    if m < |s| && '1' <= s[m] <= '9' then
      var e := DigitsEnd(s, m + 1);
      var x := Exponent(s, e, false);
      assert IsDigit(s[e + x - 1]) && NoDigitAt(s, e + x) by {
        if x == 0 && e > m + 1 { assert Digits(s, m + 1, e); }
      }
      e + x - i
    else 0
  }

  /** `-?0(?![\dx])` with the `i` flag. */
  function ZeroInt(s: string, i: nat): (n: nat)
    requires i <= |s|
    ensures i + n <= |s|
    // it matches exactly at a `0` after the optional minus that is followed by
    // neither a digit nor an `x`, and takes just that `0`
    ensures n > 0 <==> var m := i + OptMinus(s, i);
                       m < |s| && s[m] == '0' && (m + 1 == |s| || !(IsDigit(s[m + 1]) || s[m + 1] == 'x' || s[m + 1] == 'X'))
    ensures n > 0 ==> NumberStart(s, i) && n == OptMinus(s, i) + 1
  {
    var m := i + OptMinus(s, i);
    if m < |s| && s[m] == '0'
       && !(m + 1 < |s| && (IsDigit(s[m + 1]) || s[m + 1] == 'x' || s[m + 1] == 'X'))
    then m + 1 - i
    else 0
  }

  /** Where the float patterns leave the stream: each of the three is tried
      from where the previous one stopped. */
  function FloatEnd(s: string, i: nat): (p: nat)
    requires i <= |s|
    ensures i <= p <= |s|
    // a float was seen exactly when one of the float patterns matches at the
    // token start, and then at least two characters were taken
    ensures p > i <==> FloatA(s, i) > 0 || FloatB(s, i) > 0 || FloatC(s, i) > 0
    ensures p > i ==> p >= i + 2
  {
    var p1 := i + FloatA(s, i);
    var p2 := p1 + FloatB(s, p1);
    p2 + FloatC(s, p2)
  }

  /** Where the integer patterns leave the stream, tried the same way. */
  function IntEnd(s: string, i: nat): (q: nat)
    requires i <= |s|
    ensures i <= q <= |s|
  {
    var q1 := i + HexInt(s, i);
    var q2 := q1 + DecimalInt(s, q1);
    q2 + ZeroInt(s, q2)
  }

  /** Where the number branch of tokenBase leaves the stream, or `i` when it
      matches nothing. The integer patterns are tried only when no float
      pattern matched; a float followed by `.` gives its last character back. */
  function NumberEnd(s: string, i: nat): (e: nat)
    requires i <= |s|
    ensures i <= e <= |s|
  {
    var p := FloatEnd(s, i);
    if p > i then (if p < |s| && s[p] == '.' then p - 1 else p)
    else IntEnd(s, i)
  }

  // ----- strings and regexes (lines 17-18, 89-100) -----

  /** `'{3}|"{3}|['"]` */
  function StringPrefix(s: string, i: nat): (n: nat)
    requires i <= |s|
    ensures i + n <= |s| && (n == 0 || n == 1 || n == 3)
    // every quote opens a string, and a tripled quote is taken whole
    ensures n > 0 <==> i < |s| && (s[i] == '\'' || s[i] == '"')
    ensures n == 3 <==> HasAt(s, i, "'''") || HasAt(s, i, "\"\"\"")
  {
    if HasAt(s, i, "'''") || HasAt(s, i, "\"\"\"") then
      assert s[i..i + 3][0] == s[i];
      3
    else if i < |s| && (s[i] == '\'' || s[i] == '"') then 1
    else 0
  }

  /** `\/{3}|\/` */
  function RegexPrefix(s: string, i: nat): (n: nat)
    requires i <= |s|
    ensures i + n <= |s| && (n == 0 || n == 1 || n == 3)
    // every slash opens a regex, and `///` is taken whole
    ensures n > 0 <==> i < |s| && s[i] == '/'
    ensures n == 3 <==> HasAt(s, i, "///")
  {
    if HasAt(s, i, "///") then
      assert s[i..i + 3][0] == s[i];
      3
    else if i < |s| && s[i] == '/' then 1
    else 0
  }

  /** `^.*\/` tested without consuming: a `/` occurs from `i` on with no line
      terminator before it. */
  predicate SlashAhead(s: string, i: nat)
    requires i <= |s|
    decreases |s| - i
  {
    i < |s| && (s[i] == '/' || (!IsLineTerminator(s[i]) && SlashAhead(s, i + 1)))
  }

  // ----- operators and delimiters (lines 8-9) -----

  /** The character after index `i` is `d`. */
  predicate NextIs(s: string, i: nat, d: char) { i + 1 < |s| && s[i + 1] == d }

  /** The characters of `operators`. */
  predicate IsOperatorChar(c: char) {
    c == '-' || c == '=' || c == '+' || c == '*' || c == '/' || c == '!' || c == '<' || c == '>'
    || c == '%' || c == '&' || c == '|' || c == '^' || c == '~' || c == '?' || c == ':'
  }

  /** `->|=>|\+[+=]?|-[\-=]?|\*[\*=]?|\/[\/=]?|[=!]=|<[><]?=?|>>?=?|%[%=]?|&=?|\|=?|\^=?|\~|[\?:=!]` */
  function Operator(s: string, i: nat): (n: nat)
    requires i <= |s|
    ensures i + n <= |s| && n <= 3
    // it matches exactly when the line goes on with an operator character,
    // and takes operator characters only
    ensures n > 0 <==> i < |s| && IsOperatorChar(s[i])
    ensures forall k :: i <= k < i + n ==> IsOperatorChar(s[k])
  {
    if i >= |s| then 0
    else
      var c := s[i];
      if (c == '-' || c == '=') && NextIs(s, i, '>') then 2
      else if c == '+' then (if NextIs(s, i, '+') || NextIs(s, i, '=') then 2 else 1)
      else if c == '-' then (if NextIs(s, i, '-') || NextIs(s, i, '=') then 2 else 1)
      else if c == '*' then (if NextIs(s, i, '*') || NextIs(s, i, '=') then 2 else 1)
      else if c == '/' then (if NextIs(s, i, '/') || NextIs(s, i, '=') then 2 else 1)
      else if (c == '=' || c == '!') && NextIs(s, i, '=') then 2
      else if c == '<' then
        var k := if NextIs(s, i, '>') || NextIs(s, i, '<') then 2 else 1;
        if i + k < |s| && s[i + k] == '=' then k + 1 else k
      else if c == '>' then
        var k := if NextIs(s, i, '>') then 2 else 1;
        if i + k < |s| && s[i + k] == '=' then k + 1 else k
      else if c == '%' then (if NextIs(s, i, '%') || NextIs(s, i, '=') then 2 else 1)
      else if c == '&' || c == '|' || c == '^' then (if NextIs(s, i, '=') then 2 else 1)
      else if c == '~' || c == '?' || c == ':' || c == '=' || c == '!' then 1
      else 0
  }

  /** `[()\[\]{},`;]|\.\.?\.?` */
  function Delimiter(s: string, i: nat): (n: nat)
    requires i <= |s|
    ensures i + n <= |s| && n <= 3
    // one bracket, comma, backtick or semicolon, or a run of up to three dots
    ensures n > 0 <==> i < |s| && s[i] in "()[]{},`;."
    ensures n > 1 ==> forall k :: i <= k < i + n ==> s[k] == '.'
    ensures n > 0 && s[i] == '.' && n < 3 ==> i + n == |s| || s[i + n] != '.'
  {
    if i >= |s| then 0
    else if s[i] in "()[]{},`;" then 1
    else if s[i] == '.' then
      if i + 1 < |s| && s[i + 1] == '.' then
        (if i + 2 < |s| && s[i + 2] == '.' then 3 else 2)
      else 1
    else 0
  }

  // ----- word lists (lines 5-7, 12-16, 19-20) -----

  const WordOperators: seq<string> := ["and", "or", "not", "is", "isnt", "in", "instanceof", "typeof"]
  const IndentKeywords: seq<string> :=
    ["for", "while", "loop", "if", "unless", "else", "switch", "try", "catch", "finally", "class"]
  const CommonKeywords: seq<string> :=
    ["break", "by", "continue", "debugger", "delete", "do", "in", "of", "new", "return",
     "then", "this", "throw", "when", "until", "->", "=>"]
  const Keywords: seq<string> := IndentKeywords + CommonKeywords
  const Constants: seq<string> :=
    ["Infinity", "NaN", "undefined", "null", "true", "false", "on", "off", "yes", "no"]

  /** JavaScript's `\b` at index k of the slice that starts before k. */
  predicate BoundaryAt(s: string, k: nat)
    requires 0 < k <= |s|
  {
    IsWordChar(s[k - 1]) != (k < |s| && IsWordChar(s[k]))
  }

  predicate WordAt(s: string, i: nat, w: string)
  {
    |w| > 0 && i + |w| <= |s| && s[i..i + |w|] == w && BoundaryAt(s, i + |w|)
  }

  /** The regex that wordRegexp builds, `^((w1)|(w2)|...)\b`: the first word of
      the list that starts at `i` and ends on a word boundary. */
  function WordMatch(s: string, i: nat, words: seq<string>): (n: nat)
    requires i <= |s|
    ensures i + n <= |s|
    ensures n > 0 <==> exists w :: w in words && WordAt(s, i, w)
    ensures n > 0 ==> s[i..i + n] in words && WordAt(s, i, s[i..i + n])
  {
    if words == [] then 0
    else if WordAt(s, i, words[0]) then |words[0]|
    else WordMatch(s, i, words[1..])
  }

  // ----- identifiers and properties (lines 10-11) -----

  /** `[_A-Za-z$][_A-Za-z$0-9]*` */
  function Identifier(s: string, i: nat): (n: nat)
    requires i <= |s|
    ensures i + n <= |s|
    // it matches exactly at an identifier start, and takes every identifier
    // character that follows
    ensures n > 0 <==> i < |s| && IsIdentStart(s[i])
    ensures forall k :: i + 1 <= k < i + n ==> IsIdentChar(s[k])
    ensures n > 0 ==> i + n == |s| || !IsIdentChar(s[i + n])
  {
    if i < |s| && IsIdentStart(s[i]) then 1 + Run(s, i + 1, IsIdentChar) else 0
  }

  /** `(@|this\.)[_A-Za-z$]?[_A-Za-z$0-9]*`; the optional first class is contained
      in the repeated one, so the tail is one run of identifier characters. */
  function Property(s: string, i: nat): (n: nat)
    requires i <= |s|
    ensures i + n <= |s|
    // it matches exactly at `@` or `this.`, and takes every identifier
    // character that follows
    ensures n > 0 <==> i < |s| && (s[i] == '@' || (i + 5 <= |s| && s[i..i + 5] == "this."))
    ensures n > 0 ==> i + n == |s| || !IsIdentChar(s[i + n])
  {
    if i < |s| && s[i] == '@' then 1 + Run(s, i + 1, IsIdentChar)
    else if i + 5 <= |s| && s[i..i + 5] == "this." then 5 + Run(s, i + 5, IsIdentChar)
    else 0
  }

  // ----- the cascade of tokenBase (lines 45-120) -----

  datatype LexKind =
    | LineComment | BlockComment | Number | StringOpen | RegexOpen
    | Operator | Punctuation | Atom | Keyword | Variable | Property | Invalid

  /** What the cascade recognised and where it leaves the stream. For
      StringOpen, RegexOpen and BlockComment `end` is just past the opener. */
  datatype Lexeme = Lexeme(kind: LexKind, end: nat)

  predicate HasAt(s: string, i: nat, w: string)
  {
    i + |w| <= |s| && s[i..i + |w|] == w
  }

  /** `w` occurs nowhere in a stretch that lacks its first character. */
  lemma NoOccurrenceWithoutHead(s: string, i: nat, j: nat, w: string)
    requires |w| > 0
    requires forall k :: i <= k < j && k < |s| ==> s[k] != w[0]
    ensures forall k :: i <= k < j ==> !HasAt(s, k, w)
  {
    forall k | i <= k < j
      ensures !HasAt(s, k, w)
    {
      if k + |w| <= |s| {
        assert s[k..k + |w|][0] == s[k];
      }
    }
  }

  /** First index from `i` on where `w` occurs (JavaScript's indexOf
      from `i`). */
  function FirstAt(s: string, i: nat, w: string): (r: Option<nat>)
    requires i <= |s|
    ensures r.Some? ==> i <= r.value && HasAt(s, r.value, w)
    ensures forall k :: i <= k && (r.None? || k < r.value) ==> !HasAt(s, k, w)
    decreases |s| - i
  {
    if i + |w| > |s| then None
    else if HasAt(s, i, w) then Some(i)
    else FirstAt(s, i + 1, w)
  }

  /** The token tokenBase recognises at `i`, when the token began at `st`
      (`st < i` only on the second fetch after a lone `.`, where the regex test
      compares the whole current text with "/"). */
  function Lex(s: string, st: nat, i: nat): (r: Lexeme)
    requires st <= i <= |s|
    ensures i <= r.end <= |s|
    ensures i < |s| ==> i < r.end
    ensures r.kind == LineComment ==> r.end == |s|
    ensures r.kind == Invalid ==> r.end == if i < |s| then i + 1 else i
  {
    if HasAt(s, i, "####") then Lexeme(LineComment, |s|)
    else if HasAt(s, i, "###") then Lexeme(BlockComment, i + 3)
    else if i < |s| && s[i] == '#' then Lexeme(LineComment, |s|)
    else if NumberStart(s, i) && NumberEnd(s, i) > i then Lexeme(Number, NumberEnd(s, i))
    else if StringPrefix(s, i) > 0 then Lexeme(StringOpen, i + StringPrefix(s, i))
    else if RegexPrefix(s, i) > 0
            && (s[st..i + RegexPrefix(s, i)] != "/" || SlashAhead(s, i + RegexPrefix(s, i)))
    then Lexeme(RegexOpen, i + RegexPrefix(s, i))
    else if Operator(s, i) > 0 then Lexeme(LexKind.Operator, i + Operator(s, i))
    else LexWord(s, i)
  }

  /** The rest of the cascade, from the word operators on. */
  function LexWord(s: string, i: nat): (r: Lexeme)
    requires i <= |s|
    ensures i <= r.end <= |s|
    ensures i < |s| ==> i < r.end
    ensures r.kind != LineComment
    ensures r.kind == Invalid ==> r.end == if i < |s| then i + 1 else i
  {
    if WordMatch(s, i, WordOperators) > 0 then Lexeme(LexKind.Operator, i + WordMatch(s, i, WordOperators))
    else if Delimiter(s, i) > 0 then Lexeme(Punctuation, i + Delimiter(s, i))
    else if WordMatch(s, i, Constants) > 0 then Lexeme(Atom, i + WordMatch(s, i, Constants))
    else if WordMatch(s, i, Keywords) > 0 then Lexeme(Keyword, i + WordMatch(s, i, Keywords))
    else if Identifier(s, i) > 0 then Lexeme(Variable, i + Identifier(s, i))
    else if Property(s, i) > 0 then Lexeme(LexKind.Property, i + Property(s, i))
    else Lexeme(Invalid, if i < |s| then i + 1 else i)
  }

  // ----- properties of the cascade -----

  /** A word in the sense of `\b`: word characters only. */
  predicate IsWord(w: string)
  {
    |w| > 0 && forall k :: 0 <= k < |w| ==> IsWordChar(w[k])
  }

  /** Every entry of a word list is a word or starts with a non-word
      character (`->`, `=>`). */
  predicate WordsOrSymbols(words: seq<string>)
  {
    forall j :: 0 <= j < |words| ==> |words[j]| > 0 && (IsWord(words[j]) || !IsWordChar(words[j][0]))
  }

  /** Two words that both start at `i` and end on a boundary are the same
      word. */
  lemma WordsExclusive(s: string, i: nat, w: string, u: string)
    requires IsWord(w) && IsWord(u) && WordAt(s, i, w) && WordAt(s, i, u)
    ensures u == w
  {
    assert u == s[i..i + |u|];
  }

  /** The word lists of the mode hold words, and `->` and `=>`. */
  lemma ListsAreWordsOrSymbols()
    ensures WordsOrSymbols(WordOperators) && WordsOrSymbols(Constants) && WordsOrSymbols(Keywords)
  {
    IndentKeywordsAreWords();
    CommonKeywordsAreWordsOrSymbols();
    forall j | 0 <= j < |Keywords|
      ensures |Keywords[j]| > 0 && (IsWord(Keywords[j]) || !IsWordChar(Keywords[j][0]))
    {
      if j < |IndentKeywords| {
        assert Keywords[j] == IndentKeywords[j];
      } else {
        assert Keywords[j] == CommonKeywords[j - |IndentKeywords|];
      }
    }
  }

  lemma IndentKeywordsAreWords()
    ensures WordsOrSymbols(IndentKeywords)
  {
  }

  lemma CommonKeywordsAreWordsOrSymbols()
    ensures WordsOrSymbols(CommonKeywords)
  {
  }

  /** Every entry of a word list starts with a letter or a non-word
      character: no entry starts with a digit. */
  predicate HeadsLetterOrSymbol(words: seq<string>)
  {
    forall j :: 0 <= j < |words| ==> |words[j]| > 0 && (IsLetter(words[j][0]) || !IsWordChar(words[j][0]))
  }

  lemma ListHeads()
    ensures HeadsLetterOrSymbol(WordOperators) && HeadsLetterOrSymbol(Constants) && HeadsLetterOrSymbol(Keywords)
  {
    assert HeadsLetterOrSymbol(IndentKeywords);
    assert HeadsLetterOrSymbol(CommonKeywords);
    forall j | 0 <= j < |Keywords|
      ensures |Keywords[j]| > 0 && (IsLetter(Keywords[j][0]) || !IsWordChar(Keywords[j][0]))
    {
      if j < |IndentKeywords| {
        assert Keywords[j] == IndentKeywords[j];
      } else {
        assert Keywords[j] == CommonKeywords[j - |IndentKeywords|];
      }
    }
  }

  /** wordRegexp's regex matches exactly the word standing at `i`, and only
      when that word is in the list. */
  lemma WordMatchFinds(s: string, i: nat, words: seq<string>, w: string)
    requires i <= |s| && WordsOrSymbols(words) && IsWord(w) && WordAt(s, i, w)
    ensures WordMatch(s, i, words) == if w in words then |w| else 0
  {
    var n := WordMatch(s, i, words);
    if n > 0 {
      var u := s[i..i + n];
      assert u[0] == s[i] == w[0];
      WordsExclusive(s, i, w, u);
    }
  }

  /** At a letter, none of the cascade's symbol patterns match. */
  lemma LetterIsNoSymbol(s: string, i: nat)
    requires i < |s| && IsLetter(s[i])
    ensures !HasAt(s, i, "####") && !HasAt(s, i, "###") && s[i] != '#'
    ensures !NumberStart(s, i) && StringPrefix(s, i) == 0 && RegexPrefix(s, i) == 0
    ensures Operator(s, i) == 0 && Delimiter(s, i) == 0
  {
    if i + 3 <= |s| {
      assert s[i..i + 3][0] == s[i];
    }
    if i + 4 <= |s| {
      assert s[i..i + 4][0] == s[i];
    }
  }

  /** From a letter only the word patterns of the cascade can match. */
  lemma LetterLexes(s: string, st: nat, i: nat)
    requires st <= i < |s| && IsLetter(s[i])
    ensures Lex(s, st, i) == LexWord(s, i) && Delimiter(s, i) == 0 && Identifier(s, i) > 0
  {
    LetterIsNoSymbol(s, i);
  }

  /** A word that begins with a letter is lexed by the order of the cascade:
      a word operator, else a constant, else a keyword, else an identifier
      (which may run on over `$`). */
  lemma WordLexes(s: string, st: nat, i: nat, w: string)
    requires st <= i <= |s| && IsWord(w) && IsLetter(w[0]) && WordAt(s, i, w)
    ensures Lex(s, st, i).kind ==
            if w in WordOperators then LexKind.Operator
            else if w in Constants then Atom
            else if w in Keywords then Keyword
            else Variable
    ensures w in WordOperators || w in Constants || w in Keywords ==> Lex(s, st, i).end == i + |w|
    ensures Lex(s, st, i).end >= i + |w|
  {
    assert s[i] == w[0];
    LetterLexes(s, st, i);
    ListsAreWordsOrSymbols();
    WordMatchFinds(s, i, WordOperators, w);
    WordMatchFinds(s, i, Constants, w);
    WordMatchFinds(s, i, Keywords, w);
    if !(w in WordOperators || w in Constants || w in Keywords) {
      forall k | i + 1 <= k < i + |w|
        ensures IsIdentChar(s[k])
      {
        assert s[k] == w[k - i];
      }
      RunCovers(s, i + 1, i + |w|, IsIdentChar);
      assert Identifier(s, i) >= |w|;
    }
  }

  /** `this.` never reaches the property pattern: `this` is a keyword first,
      so only `@` starts a property token. */
  lemma ThisDotIsKeyword(s: string, st: nat, i: nat)
    requires st <= i && HasAt(s, i, "this.")
    ensures Lex(s, st, i) == Lexeme(Keyword, i + 4)
  {
    assert s[i..i + 4] == "this" && s[i + 4] == '.' by {
      assert s[i..i + 5][..4] == s[i..i + 4] && s[i..i + 5][4] == s[i + 4];
    }
    ThisIsKeyword();
    WordLexes(s, st, i, "this");
  }

  /** `this` is a keyword and no word operator or constant. */
  lemma ThisIsKeyword()
    ensures IsWord("this") && IsLetter("this"[0])
    ensures "this" !in WordOperators && "this" !in Constants && "this" in Keywords
  {
    var t := "this";
    assert forall j :: 0 <= j < |WordOperators| ==> WordOperators[j] != t;
    assert forall j :: 0 <= j < |Constants| ==> Constants[j] != t;
    assert Keywords[|IndentKeywords| + 11] == t;
  }

  /** A token that starts with a digit is a number whenever the number
      patterns match: only the comment patterns come before them. */
  lemma DigitLexesNumber(s: string, st: nat, i: nat)
    requires st <= i < |s| && IsDigit(s[i])
    ensures NumberStart(s, i)
    ensures NumberEnd(s, i) > i ==> Lex(s, st, i) == Lexeme(Number, NumberEnd(s, i))
  {
    DigitIsNoSymbol(s, i);
  }

  /** A `#` starts a comment: a block comment exactly when `###` stands
      there but `####` does not, and otherwise a line comment that runs to
      the end of the line. */
  lemma HashLexes(s: string, st: nat, i: nat)
    requires st <= i < |s| && s[i] == '#'
    ensures Lex(s, st, i).kind == BlockComment <==> HasAt(s, i, "###") && !HasAt(s, i, "####")
    ensures Lex(s, st, i).kind == BlockComment ==> Lex(s, st, i).end == i + 3
    ensures Lex(s, st, i).kind != BlockComment ==> Lex(s, st, i) == Lexeme(LineComment, |s|)
  {
  }

  /** Every quote opens a string: no comment or number pattern comes first. */
  lemma QuoteLexes(s: string, st: nat, i: nat)
    requires st <= i < |s| && (s[i] == '\'' || s[i] == '"')
    ensures Lex(s, st, i) == Lexeme(StringOpen, i + StringPrefix(s, i))
  {
    NoCommentWithoutHash(s, i);
  }

  /** No comment pattern matches at a character other than `#`. */
  lemma NoCommentWithoutHash(s: string, i: nat)
    requires i < |s| && s[i] != '#'
    ensures !HasAt(s, i, "####") && !HasAt(s, i, "###")
  {
    if i + 3 <= |s| {
      assert s[i..i + 3][0] == s[i];
    }
    if i + 4 <= |s| {
      assert s[i..i + 4][0] == s[i];
    }
  }

  /** A `/` opens a regex exactly when the prefix is `///`, or the token
      already held text before it, or another `/` lies ahead on the line;
      otherwise the slash is given back and lexed as an operator. */
  lemma SlashLexes(s: string, st: nat, i: nat)
    requires st <= i < |s| && s[i] == '/'
    ensures Lex(s, st, i).kind == RegexOpen <==>
              || RegexPrefix(s, i) == 3 || st < i
              || exists j :: i + 1 <= j < |s| && s[j] == '/' && forall k :: i + 1 <= k < j ==> !IsLineTerminator(s[k])
    ensures Lex(s, st, i).kind == RegexOpen ==> Lex(s, st, i).end == i + RegexPrefix(s, i)
    ensures Lex(s, st, i).kind != RegexOpen ==> Lex(s, st, i) == Lexeme(LexKind.Operator, i + Operator(s, i))
  {
    NoCommentWithoutHash(s, i);
    var p := RegexPrefix(s, i);
    assert |s[st..i + p]| == i + p - st;
    if p == 1 && st == i {
      assert s[st..i + p] == [s[i]];
      SlashAheadIff(s, i + 1);
    }
  }

  /** A `.` is a number when a number pattern matches there, and otherwise
      a delimiter: one, two or three dots. */
  lemma DotLexes(s: string, st: nat, i: nat)
    requires st <= i < |s| && s[i] == '.'
    ensures NumberEnd(s, i) > i ==> Lex(s, st, i) == Lexeme(Number, NumberEnd(s, i))
    ensures NumberEnd(s, i) == i ==> Lex(s, st, i) == Lexeme(Punctuation, i + Delimiter(s, i)) && Delimiter(s, i) > 0
  {
    NoCommentWithoutHash(s, i);
    assert forall j :: 0 <= j < |WordOperators| ==> WordOperators[j][0] != '.';
    NoListWordWithoutHead(s, i, WordOperators);
    assert LexWord(s, i) == Lexeme(Punctuation, i + Delimiter(s, i));
  }

  /** A word list matches nothing at a character that starts none of its
      entries. */
  lemma NoListWordWithoutHead(s: string, i: nat, words: seq<string>)
    requires i < |s| && forall j :: 0 <= j < |words| ==> |words[j]| > 0 && words[j][0] != s[i]
    ensures WordMatch(s, i, words) == 0
  {
  }

  /** Every entry of a word list starts with a letter, or with the `-` or
      `=` of an arrow. */
  predicate HeadsLetterOrArrow(words: seq<string>)
  {
    forall j :: 0 <= j < |words| ==>
      |words[j]| > 0 && (IsLetter(words[j][0]) || words[j][0] == '-' || words[j][0] == '=')
  }

  lemma ListHeadsLetterOrArrow()
    ensures HeadsLetterOrArrow(WordOperators) && HeadsLetterOrArrow(Constants) && HeadsLetterOrArrow(Keywords)
  {
    assert HeadsLetterOrArrow(IndentKeywords);
    assert HeadsLetterOrArrow(CommonKeywords);
    forall j | 0 <= j < |Keywords|
      ensures |Keywords[j]| > 0 && (IsLetter(Keywords[j][0]) || Keywords[j][0] == '-' || Keywords[j][0] == '=')
    {
      if j < |IndentKeywords| {
        assert Keywords[j] == IndentKeywords[j];
      } else {
        assert Keywords[j] == CommonKeywords[j - |IndentKeywords|];
      }
    }
  }

  /** No word list of the mode matches at a character that is neither a
      letter nor the head of an arrow. */
  lemma NoWordListMatch(s: string, i: nat)
    requires i < |s| && !IsLetter(s[i]) && s[i] != '-' && s[i] != '='
    ensures WordMatch(s, i, WordOperators) == 0 && WordMatch(s, i, Constants) == 0
    ensures WordMatch(s, i, Keywords) == 0
  {
    ListHeadsLetterOrArrow();
    NoListWordWithoutHead(s, i, WordOperators);
    NoListWordWithoutHead(s, i, Constants);
    NoListWordWithoutHead(s, i, Keywords);
  }

  /** A `-` is a number whenever a number pattern matches there, since the
      number branch comes before the operators: `-1` is one token, also
      right after a name as in `x-1`. Otherwise the `-` is an operator. */
  lemma MinusLexes(s: string, st: nat, i: nat)
    requires st <= i < |s| && s[i] == '-'
    ensures NumberEnd(s, i) > i ==> Lex(s, st, i) == Lexeme(Number, NumberEnd(s, i))
    ensures NumberEnd(s, i) == i ==> Lex(s, st, i) == Lexeme(LexKind.Operator, i + Operator(s, i))
  {
    NoCommentWithoutHash(s, i);
    NumberStartGate(s, i);
  }

  /** In `x-1` the token after the name is the number `-1`. */
  lemma MinusAfterNameIsNumber()
    ensures Lex("x-1", 1, 1) == Lexeme(Number, 3)
  {
    var s := "x-1";
    assert OptMinus(s, 1) == 1 && DigitsEnd(s, 2) == 3 && DigitsEnd(s, 3) == 3;
    assert FloatA(s, 1) == 0 && FloatB(s, 1) == 0 && FloatC(s, 1) == 0;
    assert FloatEnd(s, 1) == 1;
    assert HexInt(s, 1) == 0 && Exponent(s, 3, false) == 0;
    assert DecimalInt(s, 1) == 2 && ZeroInt(s, 3) == 0;
    assert IntEnd(s, 1) == 3;
    MinusLexes(s, 1, 1);
  }

  /** An `@` always starts a property: no earlier pattern matches there. */
  lemma AtLexes(s: string, st: nat, i: nat)
    requires st <= i < |s| && s[i] == '@'
    ensures Lex(s, st, i) == Lexeme(LexKind.Property, i + Property(s, i)) && Property(s, i) > 0
  {
    NoCommentWithoutHash(s, i);
    NoWordListMatch(s, i);
  }

  /** A `_` or `$` always starts a variable: no word of the lists starts
      with either. */
  lemma IdentStartLexes(s: string, st: nat, i: nat)
    requires st <= i < |s| && (s[i] == '_' || s[i] == '$')
    ensures Lex(s, st, i) == Lexeme(Variable, i + Identifier(s, i)) && Identifier(s, i) > 0
  {
    NoCommentWithoutHash(s, i);
    NoWordListMatch(s, i);
    assert Delimiter(s, i) == 0 && Identifier(s, i) > 0;
    assert LexWord(s, i) == Lexeme(Variable, i + Identifier(s, i));
    assert !NumberStart(s, i) && StringPrefix(s, i) == 0 && RegexPrefix(s, i) == 0 && Operator(s, i) == 0;
  }

  /** An operator character other than `-` and `/` (whose own lemmas give
      the number and regex cases) is always an operator. */
  lemma OperatorCharLexes(s: string, st: nat, i: nat)
    requires st <= i < |s| && IsOperatorChar(s[i]) && s[i] != '-' && s[i] != '/'
    ensures Lex(s, st, i) == Lexeme(LexKind.Operator, i + Operator(s, i)) && Operator(s, i) > 0
  {
    NoCommentWithoutHash(s, i);
  }

  /** A bracket, comma, backtick or semicolon is always one character of
      punctuation. */
  lemma DelimiterCharLexes(s: string, st: nat, i: nat)
    requires st <= i < |s| && s[i] in "()[]{},`;"
    ensures Lex(s, st, i) == Lexeme(Punctuation, i + 1)
  {
    NoCommentWithoutHash(s, i);
    NoWordListMatch(s, i);
    assert Delimiter(s, i) == 1;
    assert LexWord(s, i) == Lexeme(Punctuation, i + 1);
    assert !NumberStart(s, i) && StringPrefix(s, i) == 0 && RegexPrefix(s, i) == 0 && Operator(s, i) == 0;
  }

  /** Any other character is an error token of one character: the fallback
      `stream.next()` of the cascade. */
  lemma OtherLexes(s: string, st: nat, i: nat)
    requires st <= i < |s|
    requires s[i] != '#' && !IsDigit(s[i]) && s[i] != '.' && s[i] != '\'' && s[i] != '"'
    requires !IsOperatorChar(s[i]) && s[i] !in "()[]{},`;" && !IsIdentStart(s[i]) && s[i] != '@'
    ensures Lex(s, st, i) == Lexeme(Invalid, i + 1)
  {
    NoCommentWithoutHash(s, i);
    NoWordListMatch(s, i);
    if i + 5 <= |s| {
      assert s[i..i + 5][0] == s[i];
    }
  }

  /** An integer was seen exactly when one of the integer patterns matches at
      the token start. */
  lemma IntSeen(s: string, i: nat)
    requires i <= |s|
    ensures IntEnd(s, i) > i <==> HexInt(s, i) > 0 || DecimalInt(s, i) > 0 || ZeroInt(s, i) > 0
  {
    var q1 := i + HexInt(s, i);
    var q2 := q1 + DecimalInt(s, q1);
    assert HexInt(s, i) == 0 ==> q1 == i;
    assert DecimalInt(s, q1) == 0 ==> q2 == q1;
  }

  /** Once a float pattern has matched, the integer patterns play no part:
      the token is what the float patterns took, less one character exactly
      when a `.` follows, and it is never empty. */
  lemma NumberEndOfFloat(s: string, i: nat)
    requires i <= |s| && (FloatA(s, i) > 0 || FloatB(s, i) > 0 || FloatC(s, i) > 0)
    ensures i < NumberEnd(s, i) <= FloatEnd(s, i)
    ensures NumberEnd(s, i) < FloatEnd(s, i) <==> FloatEnd(s, i) < |s| && s[FloatEnd(s, i)] == '.'
    ensures NumberEnd(s, i) >= FloatEnd(s, i) - 1
  {
  }

  /** When no float pattern matches, the number is what the integer patterns
      take. */
  lemma NumberEndOfInteger(s: string, i: nat)
    requires i <= |s| && FloatA(s, i) == 0 && FloatB(s, i) == 0 && FloatC(s, i) == 0
    ensures NumberEnd(s, i) == IntEnd(s, i)
  {
  }

  /** The number branch matches at all exactly when one of its six patterns
      matches at the token start. */
  lemma NumberMatchesIff(s: string, i: nat)
    requires i <= |s|
    ensures NumberEnd(s, i) > i <==>
              FloatA(s, i) > 0 || FloatB(s, i) > 0 || FloatC(s, i) > 0
              || HexInt(s, i) > 0 || DecimalInt(s, i) > 0 || ZeroInt(s, i) > 0
  {
    IntSeen(s, i);
  }

  /** The lookahead `-?[0-9\.]` that guards the number branch hides no
      number: wherever the number patterns match, it holds. It is not
      sufficient, as `-.` and a lone `.` show. */
  lemma NumberStartGate(s: string, i: nat)
    requires i <= |s|
    ensures NumberEnd(s, i) > i ==> NumberStart(s, i)
    ensures !NumberStart(s, i) ==> NumberEnd(s, i) == i
  {
    NumberMatchesIff(s, i);
  }

  /** The gate lets through a lone "." on which no number pattern matches. */
  lemma DotPassesGateAlone()
    ensures NumberStart(".", 0) && NumberEnd(".", 0) == 0
  {
    var s := ".";
    assert OptMinus(s, 0) == 0;
    assert DigitsEnd(s, 0) == 0 && DigitsEnd(s, 1) == 1;
    assert FloatA(s, 0) == 0;
    assert FloatB(s, 0) == 0;
    assert FloatC(s, 0) == 0;
    assert HexInt(s, 0) == 0 && DecimalInt(s, 0) == 0 && ZeroInt(s, 0) == 0;
    NumberEndOfInteger(s, 0);
  }

  /** `^.*\/` as a lookahead: some `/` lies ahead on the line with no line
      terminator before it. */
  lemma {:induction false} SlashAheadIff(s: string, i: nat)
    requires i <= |s|
    ensures SlashAhead(s, i) <==>
              exists j :: i <= j < |s| && s[j] == '/' && forall k :: i <= k < j ==> !IsLineTerminator(s[k])
    decreases |s| - i
  {
    if i < |s| && s[i] != '/' && !IsLineTerminator(s[i]) {
      SlashAheadIff(s, i + 1);
      if SlashAhead(s, i + 1) {
        var j :| i + 1 <= j < |s| && s[j] == '/' && forall k :: i + 1 <= k < j ==> !IsLineTerminator(s[k]);
        assert forall k :: i <= k < j ==> !IsLineTerminator(s[k]);
      }
    }
  }

  /** `0x` followed by hex digits, and then no `-`, is one number token up
      to the last hex digit: no float pattern matches, and after the hex
      pattern the other integer patterns find nothing to add. */
  lemma HexLexesWhole(s: string, st: nat, i: nat)
    requires st <= i && i + 1 < |s| && s[i] == '0' && (s[i + 1] == 'x' || s[i + 1] == 'X')
    requires Run(s, i + 2, IsHexDigit) > 0
    requires var q := i + 2 + Run(s, i + 2, IsHexDigit); q == |s| || s[q] != '-'
    ensures NumberEnd(s, i) == i + 2 + Run(s, i + 2, IsHexDigit)
    ensures Lex(s, st, i) == Lexeme(Number, i + 2 + Run(s, i + 2, IsHexDigit))
  {
    HexNoFloat(s, i);
    HexIntEnd(s, i);
    NumberEndOfInteger(s, i);
    DigitLexesNumber(s, st, i);
  }

  /** No float pattern matches at `0x`. */
  lemma HexNoFloat(s: string, i: nat)
    requires i + 1 < |s| && s[i] == '0' && (s[i + 1] == 'x' || s[i + 1] == 'X')
    ensures FloatA(s, i) == 0 && FloatB(s, i) == 0 && FloatC(s, i) == 0
  {
    assert DigitsEnd(s, i) == i + 1 && DigitsEnd(s, i + 1) == i + 1;
  }

  /** After the hex pattern, the other integer patterns add nothing unless a
      `-` follows. */
  lemma HexIntEnd(s: string, i: nat)
    requires i + 1 < |s| && s[i] == '0' && (s[i + 1] == 'x' || s[i + 1] == 'X')
    requires Run(s, i + 2, IsHexDigit) > 0
    requires var q := i + 2 + Run(s, i + 2, IsHexDigit); q == |s| || s[q] != '-'
    ensures IntEnd(s, i) == i + 2 + Run(s, i + 2, IsHexDigit)
  {
    var q1 := i + HexInt(s, i);
    assert q1 == i + 2 + Run(s, i + 2, IsHexDigit);
    assert OptMinus(s, q1) == 0;
    assert q1 < |s| ==> !IsDigit(s[q1]);
    assert DecimalInt(s, q1) == 0;
    assert ZeroInt(s, q1) == 0;
    IntEndOfOne(s, i);
  }

  /** When only the first integer pattern matches, the integer patterns
      stop where it does. */
  lemma IntEndOfOne(s: string, i: nat)
    requires i <= |s|
    requires var q1 := i + HexInt(s, i); DecimalInt(s, q1) == 0 && ZeroInt(s, q1) == 0
    ensures IntEnd(s, i) == i + HexInt(s, i)
  {
  }

  lemma HexIsOneNumber()
    ensures Lex("0x1A", 0, 0) == Lexeme(Number, 4)
  {
    var s := "0x1A";
    assert Run(s, 4, IsHexDigit) == 0;
    assert Run(s, 2, IsHexDigit) == 2;
    HexLexesWhole(s, 0, 0);
  }

  /** The integer patterns are chained like the float ones, so a `-` and a
      digit right after a hex literal are taken into the same number token. */
  lemma HexThenMinusIsOneNumber()
    ensures Lex("0xff-1", 0, 0) == Lexeme(Number, 6)
  {
    HexMinusNumberEnd();
    DigitLexesNumber("0xff-1", 0, 0);
  }

  lemma HexMinusNumberEnd()
    ensures NumberEnd("0xff-1", 0) == 6
  {
    var s := "0xff-1";
    HexNoFloat(s, 0);
    assert Run(s, 4, IsHexDigit) == 0 && Run(s, 2, IsHexDigit) == 2;
    assert HexInt(s, 0) == 4;
    IntAfterHex(s);
    NumberEndOfInteger(s, 0);
  }


  lemma IntAfterHex(s: string)
    requires s == "0xff-1" && HexInt(s, 0) == 4
    ensures IntEnd(s, 0) == 6
  {
    assert DigitsEnd(s, 6) == 6 && Exponent(s, 6, false) == 0;
    assert DecimalInt(s, 4) == 2 && ZeroInt(s, 6) == 0;
  }


  /** The first float pattern takes a signed exponent: `0.5e-3` is one number. */
  lemma ExponentIsPartOfFloat()
    ensures Lex("0.5e-3", 0, 0) == Lexeme(Number, 6)
  {
    ExponentNumberEnd();
    DigitLexesNumber("0.5e-3", 0, 0);
  }

  lemma ExponentNumberEnd()
    ensures NumberEnd("0.5e-3", 0) == 6
  {
    var s := "0.5e-3";
    assert DigitsEnd(s, 0) == 1 && DigitsEnd(s, 3) == 3 && DigitsEnd(s, 2) == 3;
    assert DigitsEnd(s, 6) == 6 && DigitsEnd(s, 5) == 6;
    assert Exponent(s, 3, true) == 3;
    assert FloatA(s, 0) == 6;
    assert FloatB(s, 6) == 0 && FloatC(s, 6) == 0;
  }


  /** `0x` without hex digits matches no number pattern, so `0` is lexed
      alone, as an error. */
  lemma ZeroXIsNoNumber()
    ensures NumberEnd("0x", 0) == 0
    ensures Lex("0x", 0, 0) == Lexeme(Invalid, 1)
  {
    ZeroXNumberEnd();
    DigitWithoutNumber("0x", 0, 0);
  }

  lemma ZeroXNumberEnd()
    ensures NumberEnd("0x", 0) == 0
  {
    var s := "0x";
    HexNoFloat(s, 0);
    assert Run(s, 2, IsHexDigit) == 0;
    assert HexInt(s, 0) == 0 && DecimalInt(s, 0) == 0 && ZeroInt(s, 0) == 0;
    NumberEndOfInteger(s, 0);
  }



  /** At a digit where the number patterns match nothing, no other branch of
      the cascade matches either: the digit alone is an error token. */
  lemma DigitWithoutNumber(s: string, st: nat, i: nat)
    requires st <= i < |s| && IsDigit(s[i]) && NumberEnd(s, i) == i
    ensures Lex(s, st, i) == Lexeme(Invalid, i + 1)
  {
    DigitIsNoSymbol(s, i);
    ListHeads();
    NoListWordAtDigit(s, i, WordOperators);
    NoListWordAtDigit(s, i, Constants);
    NoListWordAtDigit(s, i, Keywords);
  }

  /** At a digit no comment, string, regex, operator, delimiter, identifier or
      property pattern matches. */
  lemma DigitIsNoSymbol(s: string, i: nat)
    requires i < |s| && IsDigit(s[i])
    ensures !HasAt(s, i, "####") && !HasAt(s, i, "###") && s[i] != '#'
    ensures StringPrefix(s, i) == 0 && RegexPrefix(s, i) == 0
    ensures Operator(s, i) == 0 && Delimiter(s, i) == 0
    ensures Identifier(s, i) == 0 && Property(s, i) == 0
  {
    if i + 3 <= |s| {
      assert s[i..i + 3][0] == s[i];
    }
    if i + 4 <= |s| {
      assert s[i..i + 4][0] == s[i];
    }
    if i + 5 <= |s| {
      assert s[i..i + 5][0] == s[i];
    }
  }

  /** A word of a list whose entries start with a letter or a symbol never
      stands at a digit. */
  lemma NoListWordAtDigit(s: string, i: nat, words: seq<string>)
    requires i < |s| && IsDigit(s[i]) && HeadsLetterOrSymbol(words)
    ensures WordMatch(s, i, words) == 0
  {
  }

  /** The float patterns run one after another, so the integer range `1..2`
      is one number: `\d+\.\d*` takes `1.` and `\.\d+` then takes `.2`. */
  lemma RangeIsOneNumber()
    ensures Lex("1..2", 0, 0) == Lexeme(Number, 4)
  {
    NumberEndOfRange();
    DigitLexesNumber("1..2", 0, 0);
  }

  lemma NumberEndOfRange()
    ensures NumberStart("1..2", 0) && NumberEnd("1..2", 0) == 4
  {
    var s := "1..2";
    DigitThenDots(s);
    assert DigitsEnd(s, 4) == 4;
    assert DigitsEnd(s, 3) == 4;
    assert FloatC(s, 2) == 2;
  }

  /** With a third dot the float `1.` gives its dot back, leaving the
      operator `...` alone. */
  lemma SplatAfterNumber()
    ensures Lex("1...2", 0, 0) == Lexeme(Number, 1)
  {
    NumberEndOfSplat();
    DigitLexesNumber("1...2", 0, 0);
  }

  lemma NumberEndOfSplat()
    ensures NumberStart("1...2", 0) && NumberEnd("1...2", 0) == 1
  {
    var s := "1...2";
    DigitThenDots(s);
    assert OptMinus(s, 2) == 0 && !IsDigit(s[3]);
    assert FloatC(s, 2) == 0;
    assert FloatEnd(s, 0) == 2;
  }

  /** A digit followed by two dots: the first float pattern fails and the
      second takes the digit and one dot. */
  lemma DigitThenDots(s: string)
    requires |s| >= 3 && IsDigit(s[0]) && s[1] == '.' && s[2] == '.'
    ensures NumberStart(s, 0) && FloatA(s, 0) == 0 && FloatB(s, 0) == 2
  {
    assert DigitsEnd(s, 1) == 1 && DigitsEnd(s, 2) == 2;
    assert DigitsEnd(s, 0) == 1;
  }

  /** A run covers every stretch of characters that satisfy `p`. */
  lemma {:induction false} RunCovers(s: string, i: nat, j: nat, p: char -> bool)
    requires i <= j <= |s| && forall k :: i <= k < j ==> p(s[k])
    ensures Run(s, i, p) >= j - i
    decreases j - i
  {
    if i < j {
      RunCovers(s, i + 1, j, p);
    }
  }
}
