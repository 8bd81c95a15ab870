# CoffeeScript mode for CodeMirror, modelled in Dafny

`bin/coffeescript.js` is a CodeMirror language mode. The editor hands it one
line at a time as a stream. For each token the mode returns a style, and it
keeps the lexer state that carries over from line to line:

- the installed tokenizer (the base lexer, an open string or regex, or a block
  comment);
- a linked stack of indentation and bracket scopes;
- a count of `return`s whose implicit block is still open.

The editor also asks the mode how far a new line should be indented.

This project models that core:

- **Patterns.dfy** holds the character classes, one hand-written matcher per
  regular expression of the mode, and `Lex`, the precedence cascade of
  `tokenBase`. It also proves how words, numbers and comments are
  classified.
- **Streams.dfy** holds `Stream`, a class for the part of CodeMirror's
  `StringStream` that the mode uses. It stores a line, a token start and a
  read position.
- **Continuations.dfy** holds `ScanQuoted`, which specifies where the
  string/regex tokenizer built by `tokenFactory` stops on a line. It also
  proves how delimiters and escapes behave.
- **Scopes.dfy** holds the scope stack as a sequence, bottom scope first. It
  defines what `indent`, `dedent`, the closing-bracket unwind and
  `external.indent` do to the stack or read from it, and proves their
  properties.
- **Structure.dfy** holds the structural rules of `tokenLexer` as functions on
  a `Layout` (the stack, the `return` counter and the next scope id). It
  proves what keywords, brackets, arrows, `return` and bad dedents do.
- **Mode.dfy** (module `CoffeeMode`) holds the class `State`
  (`external.startState` is its constructor) and the imperative code as
  methods with loops:
  - `tokenBase`, `tokenFactory`'s closure and `longComment`;
  - `indent` and `dedent`;
  - `tokenLexer`.
- **External.dfy** (module `CoffeeExternal`) holds `external.token` and
  `external.indent`.

  Each method's contract is stated with the functions and predicates of the
  modules above. `LexEffect` and `BaseEffect` state what `tokenBase` does.
  `LexerEffect` chains the installed tokenizer's effect and `TokenLayout` into
  what `tokenLexer` does, and `external.token` is stated with it.

Some behaviours of the code are surprising. The model follows the code in
each case:

- `indent` looks for an enclosing coffee scope starting *below* the top scope.
  So a block opened over the bare bottom scope gets offset 0, whatever the
  base column is.
- `"[({".indexOf(current)` and `"])}".indexOf(current)` look for the whole
  token `current` as a substring of those strings. They do not test one
  character against a set. The model keeps the substring search.
- `this.` never reaches the property pattern, because the keyword `this`
  matches first.
- The float patterns are applied one after another. So `1..2` is a single
  number token, while `1...2` gives back its dot.
- The integer patterns are also applied one after another. So `0xff-1` is a
  single number token: the decimal pattern goes on with `-1` after the hex
  literal.
- A string opener always creates a multi-line tokenizer. Only regexes are
  single-line.
- An unterminated single-line regex, with `singleLineStringErrors` set,
  records "error" in its closure for good and stays installed.
- The indentation signals `indent` and `dedent` are non-empty style strings.
  So `external.token` treats them as a token when it fills in the align of a
  bracket scope.

Scope objects are compared by identity in the source. `external.token` keeps
a reference to a scope that `tokenLexer` may pop. The model therefore gives
each scope an `id` that is unique within its stack.

## Model

| member | source | states |
|---|---|---|
| Patterns.Run | bin/coffeescript.js:10 | the longest run of characters of a class from an index: all of them satisfy the class and the next does not |
| Patterns.Exponent | bin/coffeescript.js:60 | an exponent matches exactly when an `e` (or `E` under the `i` flag), an optional sign and a digit stand there; it then takes the whole run of digits and ends on a digit |
| Patterns.NumberStartGate | bin/coffeescript.js:58-88 | the lookahead `-?[0-9\.]` holds wherever a number pattern matches, so it hides no number |
| Patterns.DotPassesGateAlone | bin/coffeescript.js:58-68 | a lone `.` passes the lookahead and then matches no number pattern |
| Patterns.FloatA | bin/coffeescript.js:60 | it matches exactly when the digits after the optional minus are followed by a dot and a digit; a match passes the lookahead, takes the whole fraction and then a whole exponent if one follows, and ends on a digit with no digit after it |
| Patterns.FloatB | bin/coffeescript.js:63 | it matches exactly when one or more digits after the optional minus are followed by a dot; a match takes those digits, the dot and every digit after it |
| Patterns.FloatC | bin/coffeescript.js:66 | it matches exactly when a dot and a digit follow the optional minus; a match takes the dot and every digit after it |
| Patterns.HexInt | bin/coffeescript.js:76 | it matches exactly when `0x` or `0X` and a hex digit follow the optional minus; a match takes every hex digit that follows and stops at the first character that is not one |
| Patterns.DecimalInt | bin/coffeescript.js:79 | it matches exactly at a non-zero digit after the optional minus; a match takes every digit that follows and then a whole lower-case exponent if one follows, ending on a digit with no digit after it |
| Patterns.ZeroInt | bin/coffeescript.js:82 | it matches exactly at a `0` after the optional minus that is followed by neither a digit nor an `x` or `X`, and then takes only the minus and that `0` |
| Patterns.FloatEnd | bin/coffeescript.js:59-69 | the three float patterns, each tried where the previous one stopped, stay on the line; a float was seen exactly when one of them matches at the token start, and then at least two characters were taken |
| Patterns.IntEnd | bin/coffeescript.js:76-84 | the three integer patterns, chained the same way, stay on the line |
| Patterns.NumberEnd | bin/coffeescript.js:58-88 | the number branch stays on the line; the lemmas below relate it to the six patterns |
| Patterns.IntSeen | bin/coffeescript.js:75-85 | an integer was seen exactly when one of the integer patterns matches at the token start |
| Patterns.NumberEndOfFloat | bin/coffeescript.js:69-74 | after a float the token ends where the float patterns stopped, one character earlier exactly when a `.` follows |
| Patterns.NumberEndOfInteger | bin/coffeescript.js:75-87 | with no float, the token ends where the integer patterns stop |
| Patterns.NumberMatchesIff | bin/coffeescript.js:58-88 | the number branch matches exactly when one of its six patterns matches at the token start |
| Patterns.HexLexesWhole | bin/coffeescript.js:76-86 | `0x` with hex digits and no `-` after them is one number token up to the last hex digit |
| Patterns.HexIsOneNumber | bin/coffeescript.js:76-86 | `0x1A` is one number token |
| Patterns.HexThenMinusIsOneNumber | bin/coffeescript.js:76-86 | `0xff-1` is one number token, because the decimal pattern goes on after the hex one |
| Patterns.ExponentIsPartOfFloat | bin/coffeescript.js:60-73 | `0.5e-3` is one number token, its exponent included |
| Patterns.ZeroXIsNoNumber | bin/coffeescript.js:58-120 | `0x` alone matches no number pattern, and its `0` is an error character |
| Patterns.DigitWithoutNumber | bin/coffeescript.js:58-120 | a digit at which no number pattern matches is an error token of one character |
| Patterns.SlashAheadIff | bin/coffeescript.js:94 | the lookahead `^.*\/` holds exactly when a `/` lies ahead on the line with no line terminator before it |
| Patterns.Operator | bin/coffeescript.js:8 | the operator pattern matches exactly at an operator character, and takes at most three operator characters |
| Patterns.Delimiter | bin/coffeescript.js:9 | the delimiter pattern takes one bracket, comma, backtick or semicolon, or a run of up to three dots |
| Patterns.Identifier | bin/coffeescript.js:10 | the identifier pattern matches exactly at an identifier start and takes every identifier character after it |
| Patterns.Property | bin/coffeescript.js:11 | the property pattern matches exactly at `@` or `this.` and takes every identifier character after it |
| Patterns.StringPrefix | bin/coffeescript.js:17 | a string opener matches exactly at a quote; it takes three characters exactly when a tripled quote stands there, and otherwise one |
| Patterns.RegexPrefix | bin/coffeescript.js:18 | a regex opener matches exactly at a slash; it takes three characters exactly when `///` stands there, and otherwise one |
| Patterns.WordMatch | bin/coffeescript.js:5-7 | the word regex matches if and only if some listed word stands at the index and ends on a word boundary; the match is that word |
| Patterns.FirstAt | bin/coffeescript.js:232 | indexOf: the result is an occurrence, and no occurrence comes before it |
| Patterns.NoOccurrenceWithoutHead | bin/coffeescript.js:150-151 | a stretch without the first character of a word holds no occurrence of it |
| Patterns.Lex | bin/coffeescript.js:45-120 | the cascade consumes at least one character before end of line; a line comment runs to the end; the error fallback takes exactly one character; the lemmas below state its order at every kind of first character |
| Patterns.LexWord | bin/coffeescript.js:101-120 | the word end of the cascade consumes at least one character before end of line and never past it; its error fallback takes exactly one character; AtLexes, IdentStartLexes, DelimiterCharLexes and OtherLexes state which branch fires at which character |
| Patterns.WordsExclusive | bin/coffeescript.js:6 | two words that both start at an index and end on a boundary are the same word |
| Patterns.ListsAreWordsOrSymbols | bin/coffeescript.js:12-20 | every entry of the word lists is a word, or starts with a non-word character (`->`, `=>`) |
| Patterns.WordMatchFinds | bin/coffeescript.js:5-7 | on a word standing at the index, the word regex of a list matches exactly that word when it is listed, and nothing otherwise |
| Patterns.LetterIsNoSymbol | bin/coffeescript.js:46-106 | at a letter no comment, number, string, regex, operator or delimiter pattern matches |
| Patterns.WordLexes | bin/coffeescript.js:101-115 | a word is an operator if it is a word operator, else an atom if it is a constant, else a keyword if it is a keyword, else an identifier that covers at least the word |
| Patterns.ThisDotIsKeyword | bin/coffeescript.js:110-118 | `this.` lexes as the keyword `this` alone, so the property pattern never sees it |
| Patterns.DigitLexesNumber | bin/coffeescript.js:46-88 | a token starting with a digit is a number ending where the number patterns stop, if they match at all |
| Patterns.HashLexes | bin/coffeescript.js:45-56 | at a `#` the token is a block comment of three characters exactly when `###` stands there but `####` does not, and otherwise a line comment that runs to the end of the line |
| Patterns.QuoteLexes | bin/coffeescript.js:89-92 | every quote opens a string, whatever follows it, taking the string prefix |
| Patterns.SlashLexes | bin/coffeescript.js:93-100 | at a `/` the token opens a regex exactly when the prefix is `///`, the token already holds text, or another `/` lies ahead before any line terminator; otherwise the slash is given back and lexed as an operator |
| Patterns.DotLexes | bin/coffeescript.js:58-88 | at a `.` the token is a number when a number pattern matches, and otherwise one to three dots lexed as punctuation |
| Patterns.NoCommentWithoutHash | bin/coffeescript.js:45-53 | neither comment pattern matches at a character other than `#` |
| Patterns.MinusLexes | bin/coffeescript.js:58-88 | at a `-` the token is a number whenever a number pattern matches, because that branch comes before the operators (line 101); otherwise it is the operator there |
| Patterns.MinusAfterNameIsNumber | bin/coffeescript.js:58-88 | in `x-1` the token after the name is the number `-1` |
| Patterns.AtLexes | bin/coffeescript.js:116-117 | an `@` always lexes as a property, taking the identifier characters after it |
| Patterns.IdentStartLexes | bin/coffeescript.js:113-114 | a `_` or `$` always lexes as a variable, taking the identifier characters after it |
| Patterns.OperatorCharLexes | bin/coffeescript.js:101-102 | an operator character other than `-` and `/` always lexes as the operator there |
| Patterns.DelimiterCharLexes | bin/coffeescript.js:104-105 | a bracket, comma, backtick or semicolon always lexes as one character of punctuation |
| Patterns.OtherLexes | bin/coffeescript.js:119-120 | any character that starts none of the patterns is an error token of exactly one character |
| Patterns.NoWordListMatch | bin/coffeescript.js:103-112 | no word list of the mode matches at a character that is neither a letter nor the `-` or `=` of an arrow |
| Patterns.NumberEndOfRange | bin/coffeescript.js:63-68 | on `1..2` the float patterns take all four characters |
| Patterns.RangeIsOneNumber | bin/coffeescript.js:58-74 | `1..2` is lexed as one number token |
| Patterns.NumberEndOfSplat | bin/coffeescript.js:63-72 | on `1...2` the float `1.` gives its dot back |
| Patterns.SplatAfterNumber | bin/coffeescript.js:69-73 | `1...2` is lexed as the number `1`, which leaves `...` alone |
| Patterns.RunCovers | bin/coffeescript.js:113 | a run covers every stretch of characters that satisfy its class |
| Streams.ColumnAt | bin/coffeescript.js:174 | the column after a prefix: equal to its length when the prefix has no tabs, and never less |
| Streams.EndColumnAt | bin/coffeescript.js:174 | `column()` plus `current().length` is never less than the index just past the token |
| Streams.Stream.EatSpace | bin/coffeescript.js:42 | eatSpace skips exactly the run of whitespace and reports whether it skipped any |
| Streams.Stream.EatWhile | bin/coffeescript.js:125 | eatWhile skips exactly the run of matching characters |
| Streams.Stream.Eat | bin/coffeescript.js:126 | eat consumes the next character exactly when it matches |
| Streams.Stream.Match | bin/coffeescript.js:131 | match consumes the string exactly when the rest of the line starts with it |
| Streams.Stream.Next | bin/coffeescript.js:119 | next consumes one character unless at end of line |
| Streams.Stream.SetPos | bin/coffeescript.js:71 | a regex match or backUp moves the position within the token |
| Continuations.ScanQuoted | bin/coffeescript.js:124-137 | when the tokenizer closes, the delimiter lies just before the stop |
| Continuations.ScanSkipsPlain | bin/coffeescript.js:125 | skipping characters that are not quotes, slashes or backslashes does not change where the scan stops |
| Continuations.FirstAtSkips | bin/coffeescript.js:150 | skipping positions without "###" does not change the first occurrence |
| Continuations.ClosesOnDelimiter | bin/coffeescript.js:131-133 | a one-character quote delimiter closes the token on that very character |
| Continuations.QuotedStopOnLine | bin/coffeescript.js:124-137 | the string/regex tokenizer stops on the line, not before where it started |
| Continuations.EscapeSkips | bin/coffeescript.js:126-127 | a backslash skips the next character, the delimiter included, and in a multi-line token also when that character ends the line |
| Continuations.SingleLineEscapeAtEol | bin/coffeescript.js:126-130 | a single-line token stops on a backslash that ends the line or whose escaped character does |
| Continuations.ScanWithoutEscapes | bin/coffeescript.js:124-137 | with no backslash, the token closes exactly after the first occurrence of the delimiter, and stays open when there is none |
| Continuations.MultiLineNeverEscapesAtEol | bin/coffeescript.js:128-130 | only a single-line token stops on an escape at end of line |
| Scopes.Initial | bin/coffeescript.js:268-273 | the start stack is one well-formed coffee scope |
| Scopes.LastCoffee | bin/coffeescript.js:166-171 | finds the topmost coffee scope; none above it is coffee |
| Scopes.NewOffset | bin/coffeescript.js:162-171 | offset of a pushed scope: the nearest coffee scope strictly below the top plus the indent unit, or 0 when there is none |
| Scopes.Pushed | bin/coffeescript.js:159-185 | indent pushes a scope with a fresh id over the old stack; a coffee push clears a true align on the old top; a bracket scope gets align null and alignOffset column plus token length; nothing else changes |
| Scopes.LastWithOffset | bin/coffeescript.js:194-199 | finds the topmost scope at an offset; none above it has that offset |
| Scopes.Dedented | bin/coffeescript.js:186-212 | dedent fails exactly when the top is coffee, not the bottom, and no scope below it sits at the line's indentation, and then leaves the stack alone; a coffee dedent pops to the topmost such scope; a bracket top pops exactly one scope; the bottom scope stays |
| Scopes.LastBracket | bin/coffeescript.js:249 | finds the topmost bracket scope; only coffee scopes lie above it |
| Scopes.Unwound | bin/coffeescript.js:249-251 | the unwind pops only coffee scopes, down to a bracket scope or the bottom |
| Scopes.ClosedBy | bin/coffeescript.js:247-255 | closing keeps a well-formed prefix of the stack with the same bottom; it removes only coffee scopes and, when the token is its closer, the bracket scope right below them |
| Scopes.MismatchKeepsBracket | bin/coffeescript.js:247-255 | a token that is not the closer of the nearest bracket scope pops the coffee scopes above it and keeps that bracket scope |
| Scopes.NoBracketUnwindsToBottom | bin/coffeescript.js:247-255 | with no bracket scope open, a closer pops every scope above the bottom one |
| Scopes.WithAlign | bin/coffeescript.js:283-287 | setting align on a scope object changes that scope only, if it is still on the stack |
| Scopes.SettleTop | bin/coffeescript.js:24-26 | at the start of a line a null align on the top becomes false; the rest is unchanged |
| Scopes.LastBracketAt | bin/coffeescript.js:249 | the topmost bracket scope is the one with only coffee scopes above it |
| Scopes.LastCoffeeAt | bin/coffeescript.js:166-171 | the topmost coffee scope is the one with no coffee scope above it |
| Scopes.LastWithOffsetAt | bin/coffeescript.js:194-199 | the topmost scope at an offset is the one with no such scope above it |
| Scopes.BracketRoundTrip | bin/coffeescript.js:247-255 | the closer of a bracket scope, with only coffee scopes above it, gives back the stack below the bracket |
| Scopes.PushThenClose | bin/coffeescript.js:232-255 | pushing a bracket scope and then closing it restores the stack |
| Scopes.PushedBracketExtends | bin/coffeescript.js:172-184 | a bracket push leaves the old stack untouched beneath it |
| Scopes.PushOnBottomIsZero | bin/coffeescript.js:165-171 | a push over the bare bottom scope gets offset 0 |
| Scopes.NestedOffset | bin/coffeescript.js:165-171 | a scope pushed over a coffee scope sits one indent unit deeper than that scope |
| Scopes.IndentOf | bin/coffeescript.js:298-318 | a line that does not start with a closing bracket lines up with the innermost scope: its alignment column when aligned, else its offset |
| Scopes.ClosingLineMismatched | bin/coffeescript.js:303-316 | a line that starts with a closer of another kind lines up with the nearest bracket scope below coffee scopes: its alignment column when aligned, else its offset |
| Scopes.ClosingLineWithoutBracket | bin/coffeescript.js:303-316 | with no bracket scope open, a line that starts with a closer lines up with the bottom scope |
| Scopes.ClosingLineAligned | bin/coffeescript.js:303-314 | a line that starts with the closer of an aligned bracket scope is indented to its alignment column minus one |
| Scopes.ClosingLineUnaligned | bin/coffeescript.js:303-316 | a line that starts with the closer of an unaligned bracket scope is indented like the scope below it, which is the top once the bracket closes |
| Structure.Push | bin/coffeescript.js:159-185 | indent on the layout keeps the bottom scope, keeps ids unique, and takes the next id |
| Structure.Pop | bin/coffeescript.js:186-212 | dedent on the layout keeps the bottom scope and the counters |
| Structure.CountReturn | bin/coffeescript.js:226-228 | the return rule keeps the bottom scope |
| Structure.OpenBlock | bin/coffeescript.js:229-231 | the arrow and indent-signal rule keeps the bottom scope; what it pushes is stated by ArrowAtEolOpensBlock and IndentSignalOpensBlock |
| Structure.OpenBracket | bin/coffeescript.js:232-235 | the opening bracket rule keeps the bottom scope |
| Structure.OpenKeywordBlock | bin/coffeescript.js:236-238 | the block keyword rule keeps the bottom scope |
| Structure.ThenDedent | bin/coffeescript.js:239-241 | the `then` rule keeps the bottom scope; its pop is stated by ThenClosesBlock |
| Structure.CloseBracket | bin/coffeescript.js:247-255 | the closing bracket rule keeps the bottom scope |
| Structure.EndReturn | bin/coffeescript.js:256-261 | the end-of-line return rule keeps the bottom scope |
| Structure.OpenRules | bin/coffeescript.js:226-241 | the rules before the dedent check keep the bottom scope |
| Structure.TokenLayout | bin/coffeescript.js:226-262 | no token ever pops the bottom scope; the error result comes only from a dedent signal |
| Structure.IndentKeywordShape | bin/coffeescript.js:13 | every block keyword is a word of at least two letters |
| Structure.NoIndentKeyword | bin/coffeescript.js:236 | a token that does not start with a letter is no block keyword |
| Structure.NotFoundWithoutHead | bin/coffeescript.js:232 | indexOf finds nothing when the string lacks the first character searched for |
| Structure.PlainOpenRules | bin/coffeescript.js:226-241 | an ordinary token leaves the layout as it was through the opening rules |
| Structure.OpenBracketPushes | bin/coffeescript.js:232-235 | an opening bracket pushes exactly one bracket scope tagged with its closer |
| Structure.CloseUnwinds | bin/coffeescript.js:247-255 | a closer pops the coffee scopes above its bracket scope and that scope, and nothing else |
| Structure.PushBracketExtends | bin/coffeescript.js:172-184 | a bracket push on the layout leaves the old stack beneath it |
| Structure.CloserLinesUpWithOpener | bin/coffeescript.js:303-314 | once the bracket scope is aligned, a line starting with its closer is indented to the opener's own column |
| Structure.OpenThenClose | bin/coffeescript.js:232-255 | an opening bracket token immediately followed by its closer token restores the scope stack, unless the closer ends a line with a `return` pending |
| Structure.IndentKeywordOpensBlock | bin/coffeescript.js:236-238 | a block keyword opens exactly one coffee scope |
| Structure.ArrowAtEolOpensBlock | bin/coffeescript.js:229-231 | an arrow that ends the line opens exactly one coffee scope |
| Structure.IndentSignalOpensBlock | bin/coffeescript.js:229-231 | the "indent" signal opens exactly one coffee scope at the end of the leading whitespace, and a pending `return` closes it again only when that whitespace ends the line (256-261) |
| Structure.ThenClosesBlock | bin/coffeescript.js:239-241 | `then` leaves the layout dedent() gives for the line's indentation, with a pending `return` closing one more block at the end of the line |
| Structure.ThenIsNoBlockKeyword | bin/coffeescript.js:236 | `then` matches no block keyword |
| Structure.ReturnIsNoBlockKeyword | bin/coffeescript.js:13-16 | `return` is not a block keyword |
| Structure.ReturnOpenRules | bin/coffeescript.js:226-228 | `return` only adds one pending dedent through the opening rules |
| Structure.ReturnClosesBlock | bin/coffeescript.js:256-261 | a `return` that ends the line closes the coffee block it is in, the bottom scope excepted |
| Structure.BadDedentChangesNothing | bin/coffeescript.js:242-261 | a dedent signal is an error exactly when dedent rejects the line's indentation, and then the layout is left as it was, a pending `return` included; otherwise the layout is the one dedent leaves, with the end-of-line return rule applied after it (so exactly dedent's when no `return` is pending or the line goes on) |
| CoffeeMode.State.constructor | bin/coffeescript.js:265-278 | startState: base tokenizer, one coffee scope at the base column, no pending dedent |
| CoffeeMode.AfterQuoted | bin/coffeescript.js:128-145 | the string/regex tokenizer hands back to tokenBase exactly when the delimiter was found, or a single-line token ran out with errors off; it returns "error" exactly when a single-line token ran out with errors on, or the closure had already recorded it |
| CoffeeMode.ScanSpecial | bin/coffeescript.js:126-136 | one escape, delimiter or lone quote step, proved against ScanQuoted |
| CoffeeMode.SkipPlain | bin/coffeescript.js:125 | skipping plain characters stops at end of line or at a quote, slash or backslash, and keeps ScanQuoted's result |
| CoffeeMode.ScanStep | bin/coffeescript.js:125-136 | one pass of the loop reads at least one character and keeps ScanQuoted's result |
| CoffeeMode.ScanLine | bin/coffeescript.js:124-137 | the loop stops where ScanQuoted says |
| CoffeeMode.TokenQuoted | bin/coffeescript.js:122-147 | the closure stops where ScanQuoted says and leaves the tokenizer and style given by AfterQuoted |
| CoffeeMode.SkipToHash | bin/coffeescript.js:150 | skipping to the next '#' stops at end of line or at a '#', and keeps the first "###" |
| CoffeeMode.SkipHashes | bin/coffeescript.js:155 | a run of '#' that does not start "###" is skipped whole, with progress, and keeps the first "###" |
| CoffeeMode.CommentStep | bin/coffeescript.js:150-155 | one pass of longComment's loop reads at least one character, and it closes exactly at the first "###" |
| CoffeeMode.SkipComment | bin/coffeescript.js:149-156 | the loop ends just past the first "###", or at end of line when there is none |
| CoffeeMode.LongComment | bin/coffeescript.js:148-158 | longComment always returns "comment" and hands back to tokenBase only on "###" |
| CoffeeMode.HashRunHasNoTriple | bin/coffeescript.js:155 | a run of '#' that does not begin with "###" holds no "###" |
| CoffeeMode.FindNewOffset | bin/coffeescript.js:166-171 | the search loop of indent computes NewOffset |
| CoffeeMode.Indent | bin/coffeescript.js:159-185 | indent, at the token's column plus its length, changes the state's layout exactly as Push does and keeps the state valid |
| CoffeeMode.PushAt | bin/coffeescript.js:159-185 | indent at a given column is Push on the layout |
| CoffeeMode.PushStack | bin/coffeescript.js:162-184 | the stack indent builds (offset search, align of the old top, the new scope object) is Pushed |
| CoffeeMode.OffsetBelowTop | bin/coffeescript.js:193-199 | the search loop of dedent finds a scope below the top at the line's indentation exactly when one exists |
| CoffeeMode.PopToOffset | bin/coffeescript.js:204-206 | the pop loop of dedent stops at the topmost scope at the line's indentation |
| CoffeeMode.Dedent | bin/coffeescript.js:186-212 | dedent's result and new stack are Dedented's |
| CoffeeMode.DedentStack | bin/coffeescript.js:187-211 | the checks and the pop loop of dedent compute Dedented's flag and stack |
| CoffeeMode.SolSignal | bin/coffeescript.js:29-35 | "indent" exactly when the line is indented past a coffee top scope, "dedent" exactly when it is indented less than the top scope, null otherwise |
| CoffeeMode.LexEffectAdvances | bin/coffeescript.js:45-120 | what the cascade does (LexEffect) always makes progress and stays on the line; only a block comment, string or regex opener installs another tokenizer; a line comment runs to the end of the line |
| CoffeeMode.BaseEffectPopsOnly | bin/coffeescript.js:21-121 | what tokenBase does (BaseEffect) makes progress and never pushes a scope: it keeps the stack or pops part of it, changes at most the new top, and leaves the stack alone away from the start of a line |
| CoffeeMode.LexToken | bin/coffeescript.js:45-120 | the cascade consumes what Lex says and installs the tokenizer for a comment, string or regex opener |
| CoffeeMode.SettleAlign | bin/coffeescript.js:24-26 | the start-of-line step sets the stack to SettleTop |
| CoffeeMode.TokenLineStart | bin/coffeescript.js:23-41 | at the start of a line tokenBase settles the top align, then signals indentation, dedents an unindented line or lexes as mid-line, as BaseEffect says |
| CoffeeMode.TokenMidLine | bin/coffeescript.js:42-120 | away from the start of a line, whitespace is skipped whole and styled null, and anything else is lexed as Lex says |
| CoffeeMode.TokenBase | bin/coffeescript.js:21-121 | tokenBase settles the top align at the start of a line, signals indentation, dedents an unindented line, skips whitespace, or lexes one token |
| CoffeeMode.Tokenize | bin/coffeescript.js:215 | the installed tokenizer consumes at least one character before end of line and does what its own contract says |
| CoffeeMode.UnwindCoffee | bin/coffeescript.js:249-251 | the unwind loop computes Unwound |
| CoffeeMode.CloseBrackets | bin/coffeescript.js:247-255 | the closing code sets the stack to ClosedBy |
| CoffeeMode.RuleReturn | bin/coffeescript.js:226-228 | the return rule on the state is CountReturn |
| CoffeeMode.RuleOpenBlock | bin/coffeescript.js:229-231 | the arrow and indent-signal rule on the state is OpenBlock |
| CoffeeMode.RuleOpenBracket | bin/coffeescript.js:232-235 | the opening bracket rule on the state is OpenBracket |
| CoffeeMode.RuleKeywordBlock | bin/coffeescript.js:236-238 | the block keyword rule on the state is OpenKeywordBlock |
| CoffeeMode.PopScope | bin/coffeescript.js:186-212 | dedent as a step on the layout is Pop, with Dedented's flag |
| CoffeeMode.RuleThen | bin/coffeescript.js:239-241 | the `then` rule on the state is ThenDedent |
| CoffeeMode.ApplyOpenRules | bin/coffeescript.js:226-241 | the opening rules on the state are OpenRules |
| CoffeeMode.RuleCloseBracket | bin/coffeescript.js:247-255 | the closing bracket rule on the state is CloseBracket |
| CoffeeMode.RuleEndReturn | bin/coffeescript.js:256-261 | the end-of-line return rule on the state is EndReturn |
| CoffeeMode.ApplyCloseRules | bin/coffeescript.js:247-261 | the closing rules on the state are CloseBracket then EndReturn |
| CoffeeMode.ApplyRules | bin/coffeescript.js:226-262 | the structural rules on the state are TokenLayout, returning "error" for a rejected dedent |
| CoffeeMode.FetchFirst | bin/coffeescript.js:215 | the first fetch of tokenLexer is what the installed tokenizer does, with progress on a line that is not exhausted |
| CoffeeMode.Refetch | bin/coffeescript.js:216-224 | after a lone "." a second fetch runs with the tokenizer the first left, and the token is a variable exactly when the dot is followed by one or more word characters and nothing else, else an error |
| CoffeeMode.RunRules | bin/coffeescript.js:226-262 | any other token changes the layout as TokenLayout says, with "error" for a rejected dedent |
| CoffeeMode.TokenLexer | bin/coffeescript.js:213-263 | tokenLexer goes from its start tokenizer and layout to the ones it leaves as LexerEffect says: a first fetch, then either the second fetch after a lone "." or the structural rules |
| CoffeeExternal.TokenLexerStep | bin/coffeescript.js:213-263 | on a line that is not exhausted tokenLexer reads at least one character, from the snapshot `before` to `after` as LexerEffect says |
| CoffeeExternal.Token | bin/coffeescript.js:279-297 | token makes progress; a scope whose align was null gets align false at the start of a line, giving the layout tokenLexer starts from; tokenLexer then acts as LexerEffect says; the remembered scope gets align true after a token that is neither null nor a comment, even once popped |
| CoffeeExternal.IndentFor | bin/coffeescript.js:298-318 | the indent query is 0 while a string, regex or block comment is open, and IndentOf of the scope stack otherwise |

## Left out

- CodeMirror registration (`defineMode`, `defineMIME`) and the `lineComment` and `fold` fields are host wiring.
- `StringStream` is modelled only as far as the mode uses it. The `peek` of line 229 is an end-of-line test. The peeks of lines 45 and 70 are index tests on the line inside `Lex`. `skipToEnd` and `backUp` are `SetPos`.
- Characters are Unicode scalar values (Dafny `char`), while JavaScript strings are sequences of UTF-16 code units. So on a line with characters outside the Basic Multilingual Plane the model counts differently: `column()` plus `current().length` (line 174), every column and token length, and `stream.next()` (line 119), which in the source takes only half of a surrogate pair.
- The JavaScript regular expression engine is replaced by hand-written matchers. `\s` is the ECMAScript whitespace class. `\d` and `\w` are ASCII.
- `state.lambda` is never set to true in the source, so it is treated as the constant false. `stream.lambda` does not exist.
- `state.lastToken` is recorded but never read, so it is left out.
- CoffeeExternal.IndentFor: `text` is always a string. The undefined-`text` path, where the source computes `alignOffset - {1: 0}`, is not modelled.
- Style strings are an enumeration. How the editor renders them is not modelled.
- The editor's line loop is not modelled: calling `token` until end of line and skipping blank lines.
- Scope objects are given a unique `id` instead of a heap identity. The `prev` links are the order of the sequence.
- CoffeeMode.TokenLexer: the style of the second fetch after a lone "." is discarded, as in the source. The ghost trace `LexTrace` records it, with where the first fetch ended and the tokenizer and layout it left.
- `conf.indentUnit` and `conf.mode.singleLineStringErrors` are the fields of `Config`. The editor's tab size is a field of the stream.
