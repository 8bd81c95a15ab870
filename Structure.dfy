/** The structural rules of tokenLexer (source lines 213-263): once a token
    has been read, its text and style decide which scopes are pushed or popped
    and whether a pending `return` closes the current block. This module states
    those rules as a function on the layout of the state and proves what they
    do for brackets, block keywords, arrows, `return` and bad dedents. */
module Structure {
  import opened Patterns
  import opened Scopes

  /** A token's style: null, the two structural signals tokenBase returns at
      the start of an indented line, or one of the class names. */
  datatype Style =
    | Null | IndentSignal | DedentSignal
    | Comment | Number | String | String2 | Operator | Punctuation
    | Atom | Keyword | Variable | Property | Error

  predicate IsSignal(style: Style) { style == IndentSignal || style == DedentSignal }

  /** The part of the mode's state the structural rules change: the scope
      stack, the count of `return`s whose block is still open, and the id the
      next new scope object gets. */
  datatype Layout = Layout(scopes: seq<Scope>, dedent: nat, nextId: nat)

  /** A layout reachable from startState: a well-formed stack whose bottom
      scope never has align true, and ids below `nextId`. */
  predicate LayoutValid(l: Layout)
  {
    && WellFormed(l.scopes) && l.scopes[0].align != Aligned
    && forall k :: 0 <= k < |l.scopes| ==> l.scopes[k].id < l.nextId
  }

  /** A rule's result: still valid, same bottom scope. */
  predicate Keeps(l: Layout, r: Layout)
    requires LayoutValid(l)
  {
    LayoutValid(r) && r.scopes[0] == l.scopes[0]
  }

  /** indent(stream, state, kind) on the layout, with `col` the token's column
      plus its length. */
  function Push(l: Layout, kind: ScopeKind, unit: nat, col: nat): (r: Layout)
    requires LayoutValid(l)
    ensures Keeps(l, r) && r.dedent == l.dedent && r.nextId == l.nextId + 1
    ensures r.scopes == Pushed(l.scopes, kind, unit, col, l.nextId)
  {
    PushedIdsBelow(l.scopes, kind, unit, col, l.nextId);
    Layout(Pushed(l.scopes, kind, unit, col, l.nextId), l.dedent, l.nextId + 1)
  }

  /** dedent(stream, state) on the layout, for a line indented `ind`. */
  function Pop(l: Layout, ind: nat): (r: Layout)
    requires LayoutValid(l)
    ensures Keeps(l, r) && r.dedent == l.dedent && r.nextId == l.nextId
    ensures r.scopes == Dedented(l.scopes, ind).stack
  {
    var st := Dedented(l.scopes, ind).stack;
    assert forall k :: 0 <= k < |st| ==> st[k] == l.scopes[k];
    l.(scopes := st)
  }

  // ----- the rules of tokenLexer, one by one -----

  /** `return` adds one pending dedent. */
  function CountReturn(current: string, l: Layout): (r: Layout)
    requires LayoutValid(l)
    ensures Keeps(l, r)
  {
    if current == "return" then l.(dedent := l.dedent + 1) else l
  }

  /** An arrow ending the line, or an "indent" signal, opens a coffee block. */
  function OpenBlock(unit: nat, style: Style, current: string, atEol: bool, col: nat, l: Layout): (r: Layout)
    requires LayoutValid(l)
    ensures Keeps(l, r)
  {
    if ((current == "->" || current == "=>") && atEol) || style == IndentSignal
    then Push(l, Coffee, unit, col) else l
  }

  /** `"[({".indexOf(current)`: an opening bracket opens a bracket scope. */
  function OpenBracket(unit: nat, current: string, col: nat, l: Layout): (r: Layout)
    requires LayoutValid(l)
    ensures Keeps(l, r)
  {
    match FirstAt("[({", 0, current)
    case Some(i) => Push(l, Bracket("])}"[i]), unit, col)
    case None => l
  }

  /** A block keyword opens a coffee block. */
  function OpenKeywordBlock(unit: nat, current: string, col: nat, l: Layout): (r: Layout)
    requires LayoutValid(l)
    ensures Keeps(l, r)
  {
    if WordMatch(current, 0, IndentKeywords) > 0 then Push(l, Coffee, unit, col) else l
  }

  /** `then` closes the block its line opened. */
  function ThenDedent(current: string, ind: nat, l: Layout): (r: Layout)
    requires LayoutValid(l)
    ensures Keeps(l, r)
  {
    if current == "then" then Pop(l, ind) else l
  }

  /** `"])}".indexOf(current)`: a closing bracket unwinds to its scope. */
  function CloseBracket(current: string, l: Layout): (r: Layout)
    requires LayoutValid(l)
    ensures Keeps(l, r)
  {
    if FirstAt("])}", 0, current).Some? then
      var st := ClosedBy(l.scopes, current);
      assert forall k :: 0 <= k < |st| ==> st[k] == l.scopes[k];
      l.(scopes := st)
    else l
  }

  /** At the end of a line, a pending `return` closes the current coffee
      block (the bottom scope stays). */
  function EndReturn(atEol: bool, l: Layout): (r: Layout)
    requires LayoutValid(l)
    ensures Keeps(l, r)
  {
    if l.dedent > 0 && atEol && Top(l.scopes).kind == Coffee
    then l.(scopes := if |l.scopes| > 1 then l.scopes[..|l.scopes| - 1] else l.scopes,
            dedent := l.dedent - 1)
    else l
  }

  /** The rules that run before the "dedent" signal is checked. */
  function OpenRules(unit: nat, style: Style, current: string, atEol: bool, col: nat, ind: nat, l: Layout): (r: Layout)
    requires LayoutValid(l)
    ensures Keeps(l, r)
  {
    ThenDedent(current, ind,
      OpenKeywordBlock(unit, current, col,
        OpenBracket(unit, current, col,
          OpenBlock(unit, style, current, atEol, col,
            CountReturn(current, l)))))
  }

  /** The layout after the rules of tokenLexer for a token `current` of style
      `style` (`atEol`: nothing follows it on the line; `col`: its column plus
      its length; `ind`: the line's indentation). The flag is true when the
      token was a "dedent" signal that dedent() rejected: tokenLexer then
      returns "error" at once, skipping the later rules. */
  function TokenLayout(unit: nat, style: Style, current: string, atEol: bool, col: nat, ind: nat, l: Layout): (r: (Layout, bool))
    requires LayoutValid(l)
    ensures Keeps(l, r.0)
    ensures r.1 ==> style == DedentSignal
  {
    var l5 := OpenRules(unit, style, current, atEol, col, ind, l);
    if style == DedentSignal && Dedented(l5.scopes, ind).invalid then (l5, true)
    else
      var l6 := if style == DedentSignal then Pop(l5, ind) else l5;
      (EndReturn(atEol, CloseBracket(current, l6)), false)
  }

  /** `/^\.[\w$]+$/`: a dot followed by at least one identifier character. */
  predicate DotWord(s: string)
  {
    |s| >= 2 && s[0] == '.' && forall k :: 1 <= k < |s| ==> IsIdentChar(s[k])
  }

  // ----- facts about the word lists -----

  /** Every block keyword is a word of at least two letters. */
  lemma IndentKeywordShape(w: string)
    requires w in IndentKeywords
    ensures |w| >= 2 && forall k :: 0 <= k < |w| ==> IsLetter(w[k])
  {
  }

  /** A string whose first character is not a letter starts no block keyword. */
  lemma NoIndentKeyword(s: string)
    requires |s| > 0 && !IsLetter(s[0])
    ensures WordMatch(s, 0, IndentKeywords) == 0
  {
    var n := WordMatch(s, 0, IndentKeywords);
    if n > 0 {
      IndentKeywordShape(s[0..n]);
    }
  }

  /** `t.indexOf(c)` for a one-character string is the first index of `c`. */
  lemma FirstAtOne(t: string, c: char, b: nat)
    requires b < |t| && t[b] == c && forall k :: 0 <= k < b ==> t[k] != c
    ensures FirstAt(t, 0, [c]) == Some(b)
  {
    var r := FirstAt(t, 0, [c]);
    assert HasAt(t, b, [c]) by {
      assert t[b..b + 1] == [c];
    }
  }

  /** Letters, whitespace and the first characters of the arrows are no
      brackets. */
  lemma NoBracket(c: char)
    requires IsLetter(c) || IsSpace(c) || c == '-' || c == '='
    ensures c !in "[({" && c !in "])}"
  {
  }

  /** An opening bracket is no closing bracket and no letter. */
  lemma OpenerIsNoCloser(c: char)
    requires c in "[({"
    ensures c !in "])}" && !IsLetter(c)
  {
  }

  /** A closing bracket is no opening bracket and no letter. */
  lemma CloserIsNoOpener(c: char)
    requires c in "])}"
    ensures c !in "[({" && !IsLetter(c)
  {
  }

  /** `t.indexOf(s)` is -1 when the first character of `s` is not in `t`. */
  lemma NotFoundWithoutHead(t: string, s: string)
    requires |s| > 0 && s[0] !in t
    ensures FirstAt(t, 0, s) == None
  {
    NoOccurrenceWithoutHead(t, 0, |t| + 1, s);
  }

  // ----- properties -----

  /** A token that is no keyword, arrow or bracket, and no signal, passes
      the rules before the dedent check unchanged. */
  lemma PlainOpenRules(unit: nat, style: Style, current: string, atEol: bool, col: nat, ind: nat, l: Layout)
    requires LayoutValid(l) && !IsSignal(style)
    requires current != "return" && current != "->" && current != "=>" && current != "then"
    requires FirstAt("[({", 0, current).None? && WordMatch(current, 0, IndentKeywords) == 0
    ensures OpenRules(unit, style, current, atEol, col, ind, l) == l
  {
    OnlyCountReturn(unit, style, current, atEol, col, ind, l);
  }

  /** A token that is no block keyword, arrow, bracket or `then`, and no
      signal, at most adds a pending dedent before the dedent check. */
  lemma OnlyCountReturn(unit: nat, style: Style, current: string, atEol: bool, col: nat, ind: nat, l: Layout)
    requires LayoutValid(l) && !IsSignal(style)
    requires current != "->" && current != "=>" && current != "then"
    requires FirstAt("[({", 0, current).None? && WordMatch(current, 0, IndentKeywords) == 0
    ensures OpenRules(unit, style, current, atEol, col, ind, l) == CountReturn(current, l)
  {
    var l1 := CountReturn(current, l);
    assert OpenBlock(unit, style, current, atEol, col, l1) == l1;
    assert OpenBracket(unit, current, col, l1) == l1;
    assert OpenKeywordBlock(unit, current, col, l1) == l1;
  }

  /** An opening bracket is found by the opening rule, not by the closing
      one, and is no block keyword. */
  lemma OpenerFacts(b: nat)
    requires b < 3
    ensures var current := ["[({"[b]];
            && FirstAt("[({", 0, current) == Some(b) && FirstAt("])}", 0, current) == None
            && WordMatch(current, 0, IndentKeywords) == 0
  {
    var c := "[({"[b];
    var current := [c];
    OpenerIsNoCloser(c);
    assert forall k :: 0 <= k < b ==> "[({"[k] != c by {
      if b == 1 {
        assert c == '(';
      } else if b == 2 {
        assert c == '{';
      }
    }
    FirstAtOne("[({", c, b);
    NoIndentKeyword(current);
    NotFoundWithoutHead("])}", current);
  }

  /** An opening bracket pushes a bracket scope for the matching closer. */
  lemma {:induction false} OpenBracketPushes(unit: nat, style: Style, b: nat, atEol: bool, col: nat, ind: nat, l: Layout)
    requires LayoutValid(l) && b < 3 && !IsSignal(style)
    ensures TokenLayout(unit, style, ["[({"[b]], atEol, col, ind, l) == (Push(l, Bracket("])}"[b]), unit, col), false)
  {
    OpenerFacts(b);
    OneOpenerPushes(unit, style, ["[({"[b]], b, atEol, col, ind, l);
  }

  /** OpenBracketPushes for any one-character token the opening rule finds
      and no other rule does. */
  lemma OneOpenerPushes(unit: nat, style: Style, current: string, b: nat, atEol: bool, col: nat, ind: nat, l: Layout)
    requires LayoutValid(l) && b < 3 && !IsSignal(style) && |current| == 1
    requires FirstAt("[({", 0, current) == Some(b) && FirstAt("])}", 0, current) == None
    requires WordMatch(current, 0, IndentKeywords) == 0
    ensures TokenLayout(unit, style, current, atEol, col, ind, l) == (Push(l, Bracket("])}"[b]), unit, col), false)
  {
    var p := Push(l, Bracket("])}"[b]), unit, col);
    OneOpenerOpens(unit, style, current, b, atEol, col, ind, l);
    assert CloseBracket(current, p) == p;
    assert Top(p.scopes).kind != Coffee;
  }

  /** The rules before the dedent check push the one bracket scope. */
  lemma OneOpenerOpens(unit: nat, style: Style, current: string, b: nat, atEol: bool, col: nat, ind: nat, l: Layout)
    requires LayoutValid(l) && b < 3 && !IsSignal(style) && |current| == 1
    requires FirstAt("[({", 0, current) == Some(b) && WordMatch(current, 0, IndentKeywords) == 0
    ensures OpenRules(unit, style, current, atEol, col, ind, l) == Push(l, Bracket("])}"[b]), unit, col)
  {
    var p := Push(l, Bracket("])}"[b]), unit, col);
    assert current != "return" && current != "->" && current != "=>" && current != "then";
    assert OpenBlock(unit, style, current, atEol, col, CountReturn(current, l)) == l;
    assert OpenKeywordBlock(unit, current, col, OpenBracket(unit, current, col, l)) == p;
  }

  /** A closing bracket pops the coffee scopes pushed since its bracket scope
      and then that bracket scope, unless a pending `return` closes a block on
      the same step. */
  lemma {:induction false} CloseUnwinds(unit: nat, style: Style, st: seq<Scope>, b: Scope, extra: seq<Scope>,
                                       atEol: bool, col: nat, ind: nat, l: Layout)
    requires LayoutValid(l) && l.scopes == st + [b] + extra && WellFormed(st) && b.kind.Bracket?
    requires forall k :: 0 <= k < |extra| ==> extra[k].kind == Coffee
    requires b.kind.closer in "])}" && !IsSignal(style) && (l.dedent == 0 || !atEol)
    ensures TokenLayout(unit, style, [b.kind.closer], atEol, col, ind, l) == (l.(scopes := st), false)
  {
    var current := [b.kind.closer];
    CloserIsNoOpener(b.kind.closer);
    NoIndentKeyword(current);
    NotFoundWithoutHead("[({", current);
    PlainOpenRules(unit, style, current, atEol, col, ind, l);
    var i :| 0 <= i < 3 && "])}"[i] == b.kind.closer;
    assert HasAt("])}", i, current);
    BracketRoundTrip(st, b, extra);
    assert CloseBracket(current, l) == l.(scopes := st);
  }

  /** Pushing a bracket scope leaves the old stack below it untouched. */
  lemma PushBracketExtends(l: Layout, c: char, unit: nat, col: nat)
    requires LayoutValid(l)
    ensures var p := Push(l, Bracket(c), unit, col).scopes;
            p == l.scopes + [Top(p)] && Top(p).kind == Bracket(c)
  {
    PushedBracketExtends(l.scopes, c, unit, col, l.nextId);
  }

  /** Once external.token has set the align of a bracket scope opened at
      `col` (the opener's column plus one), a line starting with its closer,
      with only coffee scopes opened since, is indented to the opener's own
      column. */
  lemma CloserLinesUpWithOpener(l: Layout, c: char, unit: nat, col: nat, extra: seq<Scope>, rest: string)
    requires LayoutValid(l) && c in "])}"
    requires forall k :: 0 <= k < |extra| ==> extra[k].kind == Coffee
    requires WellFormed(WithAlign(Push(l, Bracket(c), unit, col).scopes, l.nextId, Aligned) + extra)
    ensures IndentOf(WithAlign(Push(l, Bracket(c), unit, col).scopes, l.nextId, Aligned) + extra, [c] + rest)
            == col - 1
  {
    var p := Push(l, Bracket(c), unit, col).scopes;
    PushBracketExtends(l, c, unit, col);
    var b := Top(p).(align := Aligned);
    WithAlignOfTop(l.scopes, Top(p), Aligned);
    ClosingLineAligned(l.scopes, b, extra, rest);
  }

  /** An opening bracket token immediately followed by its closer token
      gives back the stack it started from, unless the closer ends a line
      with a `return` pending. A start-of-line dedent between the two is not
      covered: it can pop the bracket scope first. */
  lemma OpenThenClose(unit: nat, style1: Style, style2: Style, b: nat, atEol1: bool, atEol2: bool,
                      col1: nat, col2: nat, ind: nat, l: Layout)
    requires LayoutValid(l) && b < 3 && !IsSignal(style1) && !IsSignal(style2)
    requires l.dedent == 0 || !atEol2
    ensures var pushed := TokenLayout(unit, style1, ["[({"[b]], atEol1, col1, ind, l).0;
            TokenLayout(unit, style2, ["])}"[b]], atEol2, col2, ind, pushed).0.scopes == l.scopes
  {
    var pushed := Push(l, Bracket("])}"[b]), unit, col1);
    PushBracketExtends(l, "])}"[b], unit, col1);
    assert pushed.scopes == l.scopes + [Top(pushed.scopes)] + [];
    CloseUnwinds(unit, style2, l.scopes, Top(pushed.scopes), [], atEol2, col2, ind, pushed);
    OpenBracketPushes(unit, style1, b, atEol1, col1, ind, l);
  }

  /** A block keyword opens a coffee scope one indent unit past the nearest
      coffee scope below the top. */
  lemma {:induction false} IndentKeywordOpensBlock(unit: nat, style: Style, w: string, atEol: bool, col: nat, ind: nat, l: Layout)
    requires LayoutValid(l) && w in IndentKeywords && !IsSignal(style) && (l.dedent == 0 || !atEol)
    ensures TokenLayout(unit, style, w, atEol, col, ind, l) == (Push(l, Coffee, unit, col), false)
  {
    IndentKeywordFacts(w);
    var p := Push(l, Coffee, unit, col);
    assert OpenBlock(unit, style, w, atEol, col, CountReturn(w, l)) == l;
    assert OpenBracket(unit, w, col, l) == l;
    assert OpenKeywordBlock(unit, w, col, l) == p;
    assert OpenRules(unit, style, w, atEol, col, ind, l) == p;
    assert CloseBracket(w, p) == p;
  }

  /** A block keyword matches the block keyword rule and no other rule. */
  lemma IndentKeywordFacts(w: string)
    requires w in IndentKeywords
    ensures WordMatch(w, 0, IndentKeywords) > 0
    ensures FirstAt("[({", 0, w) == None && FirstAt("])}", 0, w) == None
    ensures w != "return" && w != "then" && w != "->" && w != "=>"
  {
    IndentKeywordShape(w);
    assert WordAt(w, 0, w) by {
      assert w[0..|w|] == w;
    }
    NoBracket(w[0]);
    NotFoundWithoutHead("[({", w);
    NotFoundWithoutHead("])}", w);
    assert forall j :: 0 <= j < |IndentKeywords| ==> IndentKeywords[j] != "return" && IndentKeywords[j] != "then";
  }

  /** An arrow that ends the line opens a function body block. */
  lemma ArrowAtEolOpensBlock(unit: nat, style: Style, w: string, col: nat, ind: nat, l: Layout)
    requires LayoutValid(l) && (w == "->" || w == "=>") && !IsSignal(style) && l.dedent == 0
    ensures TokenLayout(unit, style, w, true, col, ind, l) == (Push(l, Coffee, unit, col), false)
  {
    NoIndentKeyword(w);
    NoBracket(w[0]);
    NotFoundWithoutHead("[({", w);
    NotFoundWithoutHead("])}", w);
    var p := Push(l, Coffee, unit, col);
    assert OpenBlock(unit, style, w, true, col, CountReturn(w, l)) == p;
    assert OpenBracket(unit, w, col, p) == p;
    assert OpenKeywordBlock(unit, w, col, p) == p;
    assert OpenRules(unit, style, w, true, col, ind, l) == p;
    assert CloseBracket(w, p) == p;
  }

  /** No block keyword begins with 'r'. */
  lemma ReturnIsNoBlockKeyword()
    ensures WordMatch("return", 0, IndentKeywords) == 0
  {
    var r := "return";
    assert IsWord(r) && WordAt(r, 0, r) by {
      assert r[0..|r|] == r;
    }
    assert r !in IndentKeywords by {
      assert forall j :: 0 <= j < |IndentKeywords| ==> IndentKeywords[j][0] != 'r';
    }
    IndentKeywordsAreWords();
    WordMatchFinds(r, 0, IndentKeywords, r);
  }

  /** `return` is no arrow, no bracket, no block keyword and not `then`. */
  lemma ReturnFacts()
    ensures WordMatch("return", 0, IndentKeywords) == 0
    ensures FirstAt("[({", 0, "return") == None && FirstAt("])}", 0, "return") == None
    ensures "return" != "then" && "return" != "->" && "return" != "=>"
  {
    var r := "return";
    ReturnIsNoBlockKeyword();
    NoBracket(r[0]);
    NotFoundWithoutHead("[({", r);
    NotFoundWithoutHead("])}", r);
  }

  /** `return` passes the rules before the dedent check with one more
      pending dedent. */
  lemma ReturnOpenRules(unit: nat, style: Style, atEol: bool, col: nat, ind: nat, l: Layout)
    requires LayoutValid(l) && !IsSignal(style)
    ensures OpenRules(unit, style, "return", atEol, col, ind, l) == l.(dedent := l.dedent + 1)
  {
    ReturnFacts();
    OnlyCountReturn(unit, style, "return", atEol, col, ind, l);
  }

  /** A `return` that ends the line closes the current coffee block at once
      (the bottom scope is never popped); in the middle of a line it is
      counted and the block closes at the end of a later line. */
  lemma ReturnClosesBlock(unit: nat, style: Style, atEol: bool, col: nat, ind: nat, l: Layout)
    requires LayoutValid(l) && !IsSignal(style)
    ensures var r := TokenLayout(unit, style, "return", atEol, col, ind, l);
            !r.1 && r.0.nextId == l.nextId
            && if atEol && Top(l.scopes).kind == Coffee
               then r.0.dedent == l.dedent
                    && r.0.scopes == (if |l.scopes| > 1 then l.scopes[..|l.scopes| - 1] else l.scopes)
               else r.0 == l.(dedent := l.dedent + 1)
  {
    ReturnOpenRules(unit, style, atEol, col, ind, l);
    var l1 := l.(dedent := l.dedent + 1);
    ReturnFacts();
    assert CloseBracket("return", l1) == l1;
  }

  /** The "dedent" signal of a line's leading whitespace: it is an error
      exactly when dedent() rejects the line's indentation, and then the layout
      is left as it was; otherwise the layout is the one dedent() leaves, less
      the block that a pending `return` closes at the end of the line. */
  lemma BadDedentChangesNothing(unit: nat, current: string, atEol: bool, col: nat, ind: nat, l: Layout)
    requires LayoutValid(l) && |current| > 0
    requires forall k :: 0 <= k < |current| ==> IsSpace(current[k])
    ensures var r := TokenLayout(unit, DedentSignal, current, atEol, col, ind, l);
            (r.1 <==> Dedented(l.scopes, ind).invalid)
            && (r.1 ==> r.0 == l)
            && (!r.1 ==> r.0 == EndReturn(atEol, Pop(l, ind)))
            && (!r.1 && (l.dedent == 0 || !atEol) ==> r.0 == Pop(l, ind))
  {
    assert IsSpace(current[0]);
    assert !IsLetter(current[0]);
    NoIndentKeyword(current);
    assert current[0] != '-' && current[0] != '=' && current[0] != 'r' && current[0] != 't';
    NoBracket(current[0]);
    NotFoundWithoutHead("[({", current);
    NotFoundWithoutHead("])}", current);
    assert CountReturn(current, l) == l;
    assert OpenBlock(unit, DedentSignal, current, atEol, col, l) == l;
    assert OpenBracket(unit, current, col, l) == l;
    assert OpenKeywordBlock(unit, current, col, l) == l;
    assert OpenRules(unit, DedentSignal, current, atEol, col, ind, l) == l;
    assert CloseBracket(current, Pop(l, ind)) == Pop(l, ind);
  }

  /** The "indent" signal of a line's leading whitespace opens one coffee
      block at the end of that whitespace; a pending `return` closes it
      again at once only when the whitespace ends the line. */
  lemma IndentSignalOpensBlock(unit: nat, current: string, atEol: bool, col: nat, ind: nat, l: Layout)
    requires LayoutValid(l) && |current| > 0
    requires forall k :: 0 <= k < |current| ==> IsSpace(current[k])
    ensures TokenLayout(unit, IndentSignal, current, atEol, col, ind, l)
            == (EndReturn(atEol, Push(l, Coffee, unit, col)), false)
    ensures l.dedent == 0 || !atEol ==>
              TokenLayout(unit, IndentSignal, current, atEol, col, ind, l) == (Push(l, Coffee, unit, col), false)
  {
    assert IsSpace(current[0]);
    assert !IsLetter(current[0]);
    NoIndentKeyword(current);
    assert current[0] != '-' && current[0] != '=' && current[0] != 'r' && current[0] != 't';
    NoBracket(current[0]);
    NotFoundWithoutHead("[({", current);
    NotFoundWithoutHead("])}", current);
    var p := Push(l, Coffee, unit, col);
    assert CountReturn(current, l) == l;
    assert OpenBlock(unit, IndentSignal, current, atEol, col, l) == p;
    assert OpenBracket(unit, current, col, p) == p;
    assert OpenKeywordBlock(unit, current, col, p) == p;
    assert OpenRules(unit, IndentSignal, current, atEol, col, ind, l) == p;
    assert CloseBracket(current, p) == p;
  }

  /** `then` is no block keyword, although `try` also begins with 't'. */
  lemma ThenIsNoBlockKeyword()
    ensures WordMatch("then", 0, IndentKeywords) == 0
  {
    var w := "then";
    assert IsWord(w) && WordAt(w, 0, w) by {
      assert w[0..|w|] == w;
    }
    assert w !in IndentKeywords by {
      assert forall j :: 0 <= j < |IndentKeywords| ==> IndentKeywords[j] != w;
    }
    IndentKeywordsAreWords();
    WordMatchFinds(w, 0, IndentKeywords, w);
  }

  /** `then` closes the block its line opened: the layout is the one
      dedent() leaves for the line's indentation, and then a pending
      `return` may close one more block at the end of the line. */
  lemma ThenClosesBlock(unit: nat, style: Style, atEol: bool, col: nat, ind: nat, l: Layout)
    requires LayoutValid(l) && !IsSignal(style)
    ensures TokenLayout(unit, style, "then", atEol, col, ind, l) == (EndReturn(atEol, Pop(l, ind)), false)
  {
    var w := "then";
    ThenIsNoBlockKeyword();
    NoBracket(w[0]);
    NotFoundWithoutHead("[({", w);
    NotFoundWithoutHead("])}", w);
    assert CountReturn(w, l) == l;
    assert OpenBlock(unit, style, w, atEol, col, l) == l;
    assert OpenBracket(unit, w, col, l) == l;
    assert OpenKeywordBlock(unit, w, col, l) == l;
    assert OpenRules(unit, style, w, atEol, col, ind, l) == Pop(l, ind);
    assert CloseBracket(w, Pop(l, ind)) == Pop(l, ind);
  }
}
