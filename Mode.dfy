/** The CoffeeScript mode itself: its per-document state, the tokenizers that
    read one token from a line stream (tokenBase, the string/regex tokenizers
    that tokenFactory builds, longComment), the scope-stack operations indent
    and dedent, tokenLexer with its structural rules, and the three entry points
    the host calls (startState, token, indent). Source: bin/coffeescript.js. */
module CoffeeMode {
  import opened Patterns
  import opened Scopes
  import opened Continuations
  import opened Streams
  import opened Structure

  /** `state.tokenize`: tokenBase, a closure made by tokenFactory (with its
      delimiter, its single-line flag and its captured, mutable `outclass`), or
      longComment. */
  datatype Tokenizer = Base | Quoted(delim: string, singleLine: bool, outClass: Style) | InComment

  /** The host's configuration the mode reads: `conf.indentUnit` and
      `conf.mode.singleLineStringErrors`. */
  datatype Config = Config(indentUnit: nat, singleLineStringErrors: bool)

  /** The style of a token the cascade recognised by itself. */
  function StyleOf(k: LexKind): Style
  {
    match k
    case LineComment => Comment
    case BlockComment => Comment
    case Number => Style.Number
    case StringOpen => String
    case RegexOpen => String2
    case Operator => Style.Operator
    case Punctuation => Style.Punctuation
    case Atom => Style.Atom
    case Keyword => Style.Keyword
    case Variable => Style.Variable
    case Property => Style.Property
    case Invalid => Error
  }

  /** The per-document state. `scopes` is the linked scope stack (bottom
      first); `dedent` counts the `return`s whose implicit block is still open;
      `nextId` names the next scope object to be created. */
  class State {
    var tokenize: Tokenizer
    var scopes: seq<Scope>
    var dedent: nat
    var nextId: nat
    ghost const bottom: Scope

    /** The bottom scope is the one startState made and is never popped;
        scope objects are distinct; a string/regex delimiter is never empty. */
    ghost predicate Valid()
      reads this
    {
      && LayoutValid(Shape()) && scopes[0] == bottom && bottom.align == Unaligned
      && (tokenize.Quoted? ==> |tokenize.delim| > 0 && !IsSignal(tokenize.outClass))
    }

    /** The part of the state tokenLexer's structural rules change. */
    function Shape(): Layout
      reads this
    {
      Layout(scopes, dedent, nextId)
    }

    /** external.startState(basecolumn) */
    constructor (baseColumn: nat)
      ensures Valid() && tokenize == Base && dedent == 0
      ensures scopes == Initial(baseColumn) && bottom == Initial(baseColumn)[0]
    {
      tokenize := Base;
      scopes := Initial(baseColumn);
      dedent := 0;
      nextId := 1;
      bottom := Initial(baseColumn)[0];
    }
  }

  // ----- continuation tokenizers (source lines 122-158) -----

  /** The tokenizer and the style a string/regex tokenizer `t` leaves when its
      scan of the line ends in `r`. */
  function AfterQuoted(conf: Config, t: Tokenizer, r: QuotedEnd): (res: (Tokenizer, Style))
    requires t.Quoted?
    // it hands back to tokenBase exactly when the delimiter was found, or a
    // single-line token ran out at end of line with errors switched off
    ensures res.0 == Base <==>
              r.Terminated? || (r.Unclosed? && t.singleLine && !conf.singleLineStringErrors)
    // otherwise it stays in place, with "error" recorded in the closure when a
    // single-line token ran out and errors are switched on
    ensures res.0 != Base ==> res.0 == t || res.0 == t.(outClass := Error)
    ensures res.1 == Error <==>
              t.outClass == Error || (r.Unclosed? && t.singleLine && conf.singleLineStringErrors)
    ensures res.1 != Error ==> res.1 == t.outClass
  {
    match r
    case Terminated(_) => (Base, t.outClass)
    case EscapedAtEol => (t, t.outClass)
    case Unclosed =>
      if !t.singleLine then (t, t.outClass)
      else if conf.singleLineStringErrors then (t.(outClass := Error), Error)
      else (Base, t.outClass)
  }

  /** What the string/regex tokenizer `t` does from `from`: where it stops,
      the tokenizer it leaves and the style it returns. */
  predicate QuotedEffect(conf: Config, t: Tokenizer, text: string, from: nat, pos: nat, tok: Tokenizer, style: Style)
    requires t.Quoted? && from <= |text|
  {
    var r := ScanQuoted(text, from, t.delim, t.singleLine);
    pos == QuotedStop(text, r) && (tok, style) == AfterQuoted(conf, t, r)
  }

  /** What longComment does from `from` when the tokenizer was `tok0`. */
  predicate CommentEffect(text: string, from: nat, tok0: Tokenizer, pos: nat, tok: Tokenizer, style: Style)
    requires from <= |text|
  {
    style == Comment &&
    match FirstAt(text, from, "###")
    case Some(k) => pos == k + 3 && tok == Base
    case None => pos == |text| && tok == tok0
  }

  predicate IsBackslash(c: char) { c == '\\' }

  predicate IsPlain(c: char) { !IsQuoteOrSlash(c) && !IsBackslash(c) }

  /** The rest of one pass of the loop of the closure tokenFactory builds,
      from a character that is not plain (or end of line): a backslash escape,
      the delimiter, or a lone quote or slash. `done` when the token closed or
      stopped after an escape. */
  method ScanSpecial(stream: Stream, delim: string, single: bool) returns (done: bool, r: QuotedEnd)
    requires stream.Valid() && |delim| > 0
    requires stream.Eol() || !IsPlain(stream.text[stream.pos])
    modifies stream`pos
    ensures stream.Valid() && old(stream.pos) <= stream.pos
    ensures !stream.Eol() ==> old(stream.pos) < stream.pos
    ensures done ==> r == ScanQuoted(stream.text, old(stream.pos), delim, single)
                     && stream.pos == QuotedStop(stream.text, r)
    ensures !done ==> ScanQuoted(stream.text, stream.pos, delim, single)
                      == ScanQuoted(stream.text, old(stream.pos), delim, single)
  {
    var escaped := stream.Eat(IsBackslash);
    if escaped {
      stream.Next();
      if single && stream.Eol() {
        return true, EscapedAtEol;
      }
      return false, Unclosed;
    }
    var closed := stream.Match(delim);
    if closed {
      return true, Terminated(stream.pos);
    }
    var _ := stream.Eat(IsQuoteOrSlash);
    return false, Unclosed;
  }

  /** The first move of a pass of the loop of the closure tokenFactory
      builds: skip the plain characters. */
  method SkipPlain(stream: Stream, delim: string, single: bool)
    requires stream.Valid()
    modifies stream`pos
    ensures stream.Valid() && old(stream.pos) <= stream.pos
    ensures stream.Eol() || !IsPlain(stream.text[stream.pos])
    ensures ScanQuoted(stream.text, stream.pos, delim, single)
            == ScanQuoted(stream.text, old(stream.pos), delim, single)
  {
    var from := stream.pos;
    var _ := stream.EatWhile(IsPlain);
    ScanSkipsPlain(stream.text, from, stream.pos, delim, single);
  }

  /** One pass of the loop of the closure tokenFactory builds. */
  method ScanStep(stream: Stream, delim: string, single: bool) returns (done: bool, r: QuotedEnd)
    requires stream.Valid() && |delim| > 0 && !stream.Eol()
    modifies stream`pos
    ensures stream.Valid() && old(stream.pos) < stream.pos
    ensures done ==> r == ScanQuoted(stream.text, old(stream.pos), delim, single)
                     && stream.pos == QuotedStop(stream.text, r)
    ensures !done ==> ScanQuoted(stream.text, stream.pos, delim, single)
                      == ScanQuoted(stream.text, old(stream.pos), delim, single)
  {
    SkipPlain(stream, delim, single);
    done, r := ScanSpecial(stream, delim, single);
  }

  /** The loop of the closure tokenFactory builds: read the line up to the
      delimiter, skipping a character after each backslash. */
  method ScanLine(stream: Stream, delim: string, single: bool) returns (r: QuotedEnd)
    requires stream.Valid() && |delim| > 0
    modifies stream`pos
    ensures stream.Valid()
    ensures r == ScanQuoted(stream.text, old(stream.pos), delim, single)
    ensures stream.pos == QuotedStop(stream.text, r)
  {
    ghost var target := ScanQuoted(stream.text, stream.pos, delim, single);
    while !stream.Eol()
      invariant stream.Valid()
      invariant ScanQuoted(stream.text, stream.pos, delim, single) == target
      decreases |stream.text| - stream.pos
    {
      var done;
      done, r := ScanStep(stream, delim, single);
      if done {
        return;
      }
    }
    return Unclosed;
  }

  /** The closure tokenFactory(delimiter, singleline, outclass) returns. */
  method TokenQuoted(conf: Config, stream: Stream, state: State) returns (style: Style)
    requires stream.Valid() && state.Valid() && state.tokenize.Quoted?
    modifies stream`pos, state`tokenize
    ensures stream.Valid() && state.Valid()
    ensures QuotedEffect(conf, old(state.tokenize), stream.text, old(stream.pos), stream.pos, state.tokenize, style)
  {
    var t := state.tokenize;
    var r := ScanLine(stream, t.delim, t.singleLine);
    if r.Terminated? {
      state.tokenize := Base;
    } else if r.Unclosed? && t.singleLine {
      if conf.singleLineStringErrors {
        state.tokenize := t.(outClass := Error);
        return Error;
      }
      state.tokenize := Base;
    }
    style := t.outClass;
  }

  /** The first move of a pass of longComment: skip to the next '#'. */
  method SkipToHash(stream: Stream)
    requires stream.Valid() && !stream.Eol()
    modifies stream`pos
    ensures stream.Valid() && old(stream.pos) <= stream.pos
    ensures old(stream.pos) < stream.pos || stream.text[stream.pos] == '#'
    ensures stream.pos == |stream.text| || stream.text[stream.pos] == '#'
    ensures FirstAt(stream.text, stream.pos, "###") == FirstAt(stream.text, old(stream.pos), "###")
  {
    var from := stream.pos;
    var _ := stream.EatWhile(c => c != '#');
    NoOccurrenceWithoutHead(stream.text, from, stream.pos, "###");
    FirstAtSkips(stream.text, from, stream.pos, "###");
  }

  /** The last move of a pass of longComment: a run of '#' that does not
      start "###" is skipped whole. */
  method SkipHashes(stream: Stream)
    requires stream.Valid() && !HasAt(stream.text, stream.pos, "###")
    requires stream.Eol() || stream.text[stream.pos] == '#'
    modifies stream`pos
    ensures stream.Valid() && old(stream.pos) <= stream.pos
    ensures old(stream.pos) < |stream.text| ==> old(stream.pos) < stream.pos
    ensures FirstAt(stream.text, stream.pos, "###") == FirstAt(stream.text, old(stream.pos), "###")
  {
    var run := stream.pos;
    var _ := stream.EatWhile(c => c == '#');
    HashRunHasNoTriple(stream.text, run, stream.pos);
    FirstAtSkips(stream.text, run, stream.pos, "###");
  }

  /** One pass of the loop of longComment: skip to the next '#', try "###",
      else skip the run of '#'. */
  method CommentStep(stream: Stream) returns (closed: bool)
    requires stream.Valid() && !stream.Eol()
    modifies stream`pos
    ensures stream.Valid() && old(stream.pos) < stream.pos
    ensures closed ==> FirstAt(stream.text, old(stream.pos), "###") == Some(stream.pos - 3)
    ensures !closed ==> FirstAt(stream.text, stream.pos, "###") == FirstAt(stream.text, old(stream.pos), "###")
  {
    SkipToHash(stream);
    closed := stream.Match("###");
    if closed {
      return;
    }
    SkipHashes(stream);
  }

  /** The loop of longComment: read to just past the first "###", or to the
      end of the line; true when "###" was found. */
  method SkipComment(stream: Stream) returns (closed: bool)
    requires stream.Valid()
    modifies stream`pos
    ensures stream.Valid()
    ensures match FirstAt(stream.text, old(stream.pos), "###")
            case Some(k) => closed && stream.pos == k + 3
            case None => !closed && stream.pos == |stream.text|
  {
    ghost var target := FirstAt(stream.text, stream.pos, "###");
    while !stream.Eol()
      invariant stream.Valid()
      invariant FirstAt(stream.text, stream.pos, "###") == target
      decreases |stream.text| - stream.pos
    {
      closed := CommentStep(stream);
      if closed {
        return;
      }
    }
    return false;
  }

  /** longComment: read to the first "###" and hand back to tokenBase, or to
      the end of the line and stay in the comment. */
  method LongComment(stream: Stream, state: State) returns (style: Style)
    requires stream.Valid() && state.Valid()
    modifies stream`pos, state`tokenize
    ensures stream.Valid() && state.Valid()
    ensures CommentEffect(stream.text, old(stream.pos), old(state.tokenize), stream.pos, state.tokenize, style)
  {
    var closed := SkipComment(stream);
    if closed {
      state.tokenize := Base;
    }
    style := Comment;
  }

  /** A maximal run of '#' that does not begin with "###" holds no "###". */
  lemma HashRunHasNoTriple(s: string, i: nat, j: nat)
    requires i <= j <= |s| && !HasAt(s, i, "###")
    requires forall k :: i <= k < j ==> s[k] == '#'
    requires j == |s| || s[j] != '#'
    ensures forall k :: i <= k < j ==> !HasAt(s, k, "###")
  {
    if i + 3 <= |s| {
      assert s[i..i + 3] != "###";
    }
    assert j < i + 3;
    forall k | i <= k < j
      ensures !HasAt(s, k, "###")
    {
      if k + 3 <= |s| {
        assert s[k..k + 3][j - k] == s[j];
      }
    }
  }

  // ----- the scope stack (source lines 159-212) -----

  /** The search loop of indent(): one indent unit past the nearest coffee
      scope below the top, or 0. */
  method FindNewOffset(st: seq<Scope>, unit: nat) returns (offset: nat)
    requires |st| >= 1
    ensures offset == NewOffset(st, unit)
  {
    var i := |st| - 1;
    while i > 0
      invariant 0 <= i < |st|
      invariant forall j :: i <= j < |st| - 1 ==> st[j].kind != Coffee
    {
      i := i - 1;
      if st[i].kind == Coffee {
        LastCoffeeAt(st[..|st| - 1], i);
        return st[i].offset + unit;
      }
    }
    return 0;
  }

  /** indent(stream, state, type): push a scope of `kind`. */
  method Indent(conf: Config, stream: Stream, state: State, kind: ScopeKind)
    requires stream.Valid() && state.Valid()
    modifies state`scopes, state`nextId
    ensures state.Valid()
    ensures state.Shape() == Push(old(state.Shape()), kind, conf.indentUnit, stream.EndColumn())
  {
    PushAt(state, kind, conf.indentUnit, stream.EndColumn());
  }

  /** indent() once the column `col` (the token's column plus its length) is
      known. */
  method PushAt(state: State, kind: ScopeKind, unit: nat, col: nat)
    requires state.Valid()
    modifies state`scopes, state`nextId
    ensures state.Valid()
    ensures state.Shape() == Push(old(state.Shape()), kind, unit, col)
  {
    ghost var l := Push(state.Shape(), kind, unit, col);
    var st := PushStack(state.scopes, kind, unit, col, state.nextId);
    SetStack(state, st, state.nextId + 1, l);
  }

  /** Replace the scope stack and the next object id by those of a valid
      layout `l` over the same bottom scope and pending dedents. */
  method SetStack(state: State, st: seq<Scope>, nextId: nat, ghost l: Layout)
    requires state.Valid() && l == Layout(st, state.dedent, nextId)
    requires LayoutValid(l) && st[0] == state.scopes[0]
    modifies state`scopes, state`nextId
    ensures state.Valid() && state.Shape() == l
  {
    state.scopes, state.nextId := st, nextId;
  }

  /** The new scope object of indent() on the stack `st`, with `col` the
      token's column plus its length and `id` the new object's identity. */
  method PushStack(st: seq<Scope>, kind: ScopeKind, unit: nat, col: nat, id: nat) returns (r: seq<Scope>)
    requires WellFormed(st) && forall k :: 0 <= k < |st| ==> st[k].id < id
    ensures r == Pushed(st, kind, unit, col, id)
  {
    var offset := FindNewOffset(st, unit);
    var top, scope := Top(st), Scope(id, offset, kind, Unaligned, 0);
    if kind != Coffee {
      scope := scope.(align := Unset, alignOffset := col);
    } else if top.align == Aligned {
      top := top.(align := Unaligned);
    }
    r := st[..|st| - 1] + [top, scope];
  }

  /** The search loop of dedent(): does a scope below the top sit at
      indentation `ind`? */
  method OffsetBelowTop(st: seq<Scope>, ind: nat) returns (matched: bool)
    requires |st| >= 1
    ensures matched <==> LastWithOffset(st[..|st| - 1], ind).Some?
  {
    var i := |st| - 1;
    while i > 0
      invariant 0 <= i < |st|
      invariant forall j :: i <= j < |st| - 1 ==> st[j].offset != ind
    {
      i := i - 1;
      if ind == st[i].offset {
        LastWithOffsetAt(st[..|st| - 1], ind, i);
        return true;
      }
    }
    return false;
  }

  /** The popping loop of dedent(): drop scopes until the top sits at `ind`. */
  method PopToOffset(st: seq<Scope>, ind: nat) returns (r: seq<Scope>)
    requires LastWithOffset(st, ind).Some?
    ensures r == st[..LastWithOffset(st, ind).value + 1]
  {
    ghost var k := LastWithOffset(st, ind).value;
    r := st;
    while |r| > 1 && Top(r).offset != ind
      invariant k < |r| <= |st| && r == st[..|r|]
      invariant forall j :: |r| <= j < |st| ==> st[j].offset != ind
      decreases |r|
    {
      r := r[..|r| - 1];
    }
    LastWithOffsetAt(st, ind, |r| - 1);
  }

  /** The decisions of dedent() on the scope stack `st` for a line indented
      `ind`. */
  method DedentStack(st: seq<Scope>, ind: nat) returns (invalid: bool, r: seq<Scope>)
    requires WellFormed(st)
    ensures DedentResult(invalid, r) == Dedented(st, ind)
  {
    if |st| == 1 {
      return false, st;
    }
    if Top(st).kind != Coffee {
      return false, st[..|st| - 1];
    }
    var matched := OffsetBelowTop(st, ind);
    if !matched {
      return true, st;
    }
    LastWithOffsetBelowTop(st, ind);
    r := PopToOffset(st, ind);
    return false, r;
  }

  /** dedent(stream, state): true when the line's indentation matches no
      enclosing scope (the stack is then left alone). */
  method Dedent(stream: Stream, state: State) returns (invalid: bool)
    requires stream.Valid() && state.Valid()
    modifies state`scopes
    ensures state.Valid()
    ensures DedentResult(invalid, state.scopes) == Dedented(old(state.scopes), stream.Indentation())
  {
    var st;
    invalid, st := DedentStack(state.scopes, stream.Indentation());
    state.scopes := st;
  }

  // ----- tokenBase (source lines 21-121) -----

  /** What tokenBase returns for a line's leading whitespace: "indent" when
      the line is indented past the top scope and that scope is a coffee
      scope, "dedent" when it is indented less than the top scope, else null. */
  function SolSignal(lineOffset: nat, top: Scope): (style: Style)
    ensures style == IndentSignal <==> lineOffset > top.offset && top.kind == Coffee
    ensures style == DedentSignal <==> lineOffset < top.offset
    ensures style == Null <==> lineOffset == top.offset || (lineOffset > top.offset && top.kind != Coffee)
  {
    if lineOffset > top.offset && top.kind == Coffee then IndentSignal
    else if lineOffset < top.offset then DedentSignal
    else Null
  }

  /** What the pattern cascade of tokenBase does from `from` (the token began
      at `start`): a block comment hands over to longComment, a string or regex
      opener to a tokenFactory closure whose delimiter is the current text, and
      any other token is returned with its style. */
  predicate LexEffect(conf: Config, text: string, start: nat, from: nat, pos: nat, tok: Tokenizer, style: Style)
    requires start <= from <= |text|
  {
    var lx := Lex(text, start, from);
    match lx.kind
    case BlockComment => CommentEffect(text, lx.end, InComment, pos, tok, style)
    case StringOpen => QuotedEffect(conf, Quoted(text[start..lx.end], false, String), text, lx.end, pos, tok, style)
    case RegexOpen => QuotedEffect(conf, Quoted(text[start..lx.end], true, String2), text, lx.end, pos, tok, style)
    case _ => pos == lx.end && tok == Base && style == StyleOf(lx.kind)
  }

  /** What tokenBase does from `from` on a line indented `ind`, with scope
      stack `sc0` before and `sc` after. At the start of a line it first turns
      a null align of the top scope to false; leading whitespace there yields
      the indentation signal, and a line with none dedents when the top scope
      is indented. Whitespace elsewhere yields null. */
  predicate BaseEffect(conf: Config, text: string, start: nat, from: nat, ind: nat,
                       sc0: seq<Scope>, pos: nat, tok: Tokenizer, sc: seq<Scope>, style: Style)
    requires start <= from <= |text| && WellFormed(sc0)
  {
    var lead := Run(text, from, IsSpace);
    var settled := if from == 0 then SettleTop(sc0) else sc0;
    if lead > 0 then
      && pos == from + lead && tok == Base && sc == settled
      && style == (if from == 0 then SolSignal(ind, Top(settled)) else Null)
    else
      && sc == (if from == 0 && Top(settled).offset > 0 then Dedented(settled, ind).stack else settled)
      && LexEffect(conf, text, start, from, pos, tok, style)
  }

  /** The cascade always makes progress on a line that is not exhausted and
      stays on the line; it leaves a tokenizer other than tokenBase only
      after a block comment, string or regex opener; a line comment runs to
      the end of the line. */
  lemma LexEffectAdvances(conf: Config, text: string, start: nat, from: nat, pos: nat, tok: Tokenizer, style: Style)
    requires start <= from < |text| && LexEffect(conf, text, start, from, pos, tok, style)
    ensures from < pos <= |text|
    ensures var k := Lex(text, start, from).kind;
            tok != Base ==> k == BlockComment || k == StringOpen || k == RegexOpen
    ensures Lex(text, start, from).kind == LineComment ==> pos == |text| && style == Comment
  {
    var lx := Lex(text, start, from);
    match lx.kind
    case StringOpen => QuotedStopOnLine(text, lx.end, text[start..lx.end], false);
    case RegexOpen => QuotedStopOnLine(text, lx.end, text[start..lx.end], true);
    case _ =>
  }

  /** tokenBase never pushes a scope: it keeps the stack, or pops part of
      it, and changes at most the align of the new top. Away from the start
      of a line the stack is left alone. It always makes progress. */
  lemma BaseEffectPopsOnly(conf: Config, text: string, start: nat, from: nat, ind: nat,
                           sc0: seq<Scope>, pos: nat, tok: Tokenizer, sc: seq<Scope>, style: Style)
    requires start <= from < |text| && WellFormed(sc0)
    requires BaseEffect(conf, text, start, from, ind, sc0, pos, tok, sc, style)
    ensures from < pos <= |text|
    ensures WellFormed(sc) && |sc| <= |sc0|
    ensures forall k :: 0 <= k < |sc| - 1 ==> sc[k] == sc0[k]
    ensures from > 0 ==> sc == sc0
  {
    var settled := if from == 0 then SettleTop(sc0) else sc0;
    assert forall k :: 0 <= k < |sc0| - 1 ==> settled[k] == sc0[k] by {
      if from == 0 {
        forall k | 0 <= k < |sc0| - 1
          ensures settled[k] == sc0[k]
        {
          assert settled[..|sc0| - 1][k] == sc0[..|sc0| - 1][k];
        }
      }
    }
    if Run(text, from, IsSpace) == 0 {
      LexEffectAdvances(conf, text, start, from, pos, tok, style);
      if from == 0 && Top(settled).offset > 0 {
        var d := Dedented(settled, ind).stack;
        assert d <= settled;
        assert forall k :: 0 <= k < |d| ==> d[k] == settled[k];
      }
    }
  }

  /** The pattern cascade of tokenBase and the hand-over to the tokenizer it
      installs. */
  method LexToken(conf: Config, stream: Stream, state: State) returns (style: Style)
    requires stream.Valid() && state.Valid() && state.tokenize == Base
    modifies stream`pos, state`tokenize
    ensures stream.Valid() && state.Valid()
    ensures LexEffect(conf, stream.text, stream.start, old(stream.pos), stream.pos, state.tokenize, style)
  {
    var lx := Lex(stream.text, stream.start, stream.pos);
    stream.SetPos(lx.end);
    match lx.kind
    case BlockComment =>
      state.tokenize := InComment;
      style := LongComment(stream, state);
    case StringOpen =>
      state.tokenize := Quoted(stream.Current(), false, String);
      style := TokenQuoted(conf, stream, state);
    case RegexOpen =>
      state.tokenize := Quoted(stream.Current(), true, String2);
      style := TokenQuoted(conf, stream, state);
    case _ =>
      style := StyleOf(lx.kind);
  }

  /** The part of tokenBase that runs away from the start of a line:
      whitespace is skipped and styled null, anything else goes through the
      pattern cascade. */
  method TokenMidLine(conf: Config, stream: Stream, state: State) returns (style: Style)
    requires stream.Valid() && state.Valid() && state.tokenize == Base
    modifies stream`pos, state`tokenize
    ensures stream.Valid() && state.Valid()
    ensures var lead := Run(stream.text, old(stream.pos), IsSpace);
            if lead > 0 then stream.pos == old(stream.pos) + lead && state.tokenize == Base && style == Null
            else LexEffect(conf, stream.text, stream.start, old(stream.pos), stream.pos, state.tokenize, style)
  {
    var spaced := stream.EatSpace();
    if spaced {
      return Null;
    }
    style := LexToken(conf, stream, state);
  }

  /** The first step of tokenBase on a line: a null align of the top scope
      becomes false. */
  method SettleAlign(state: State)
    requires state.Valid()
    modifies state`scopes
    ensures state.Valid() && state.scopes == SettleTop(old(state.scopes))
  {
    var st := state.scopes;
    if Top(st).align == Unset {
      state.scopes := st[..|st| - 1] + [Top(st).(align := Unaligned)];
    }
  }

  /** tokenBase at the start of a line. */
  method TokenLineStart(conf: Config, stream: Stream, state: State) returns (style: Style)
    requires stream.Valid() && state.Valid() && state.tokenize == Base && stream.Sol()
    modifies stream`pos, state`tokenize, state`scopes
    ensures stream.Valid() && state.Valid()
    ensures BaseEffect(conf, stream.text, stream.start, 0, stream.Indentation(),
                       old(state.scopes), stream.pos, state.tokenize, state.scopes, style)
  {
    SettleAlign(state);
    var scopeOffset := Top(state.scopes).offset;
    var spaced := stream.EatSpace();
    if spaced {
      style := SolSignal(stream.Indentation(), Top(state.scopes));
      return;
    } else if scopeOffset > 0 {
      var _ := Dedent(stream, state);
    }
    style := TokenMidLine(conf, stream, state);
  }

  /** tokenBase(stream, state) */
  method TokenBase(conf: Config, stream: Stream, state: State) returns (style: Style)
    requires stream.Valid() && state.Valid() && state.tokenize == Base
    modifies stream`pos, state`tokenize, state`scopes
    ensures stream.Valid() && state.Valid()
    ensures BaseEffect(conf, stream.text, stream.start, old(stream.pos), stream.Indentation(),
                       old(state.scopes), stream.pos, state.tokenize, state.scopes, style)
  {
    if stream.Sol() {
      style := TokenLineStart(conf, stream, state);
    } else {
      style := TokenMidLine(conf, stream, state);
    }
  }

  /** What `state.tokenize(stream, state)` does, whichever tokenizer is
      installed (`tok0`). */
  predicate TokenizeEffect(conf: Config, tok0: Tokenizer, text: string, start: nat, from: nat, ind: nat,
                           sc0: seq<Scope>, pos: nat, tok: Tokenizer, sc: seq<Scope>, style: Style)
    requires start <= from <= |text| && WellFormed(sc0)
  {
    match tok0
    case Base => BaseEffect(conf, text, start, from, ind, sc0, pos, tok, sc, style)
    case Quoted(_, _, _) => sc == sc0 && QuotedEffect(conf, tok0, text, from, pos, tok, style)
    case InComment => sc == sc0 && CommentEffect(text, from, tok0, pos, tok, style)
  }

  /** `state.tokenize(stream, state)`: every tokenizer reads at least one
      character unless the line is already exhausted. */
  method Tokenize(conf: Config, stream: Stream, state: State) returns (style: Style)
    requires stream.Valid() && state.Valid()
    modifies stream`pos, state`tokenize, state`scopes
    ensures stream.Valid() && state.Valid()
    ensures old(stream.pos) <= stream.pos && (old(stream.pos) < |stream.text| ==> old(stream.pos) < stream.pos)
    ensures TokenizeEffect(conf, old(state.tokenize), stream.text, stream.start, old(stream.pos), stream.Indentation(),
                           old(state.scopes), stream.pos, state.tokenize, state.scopes, style)
  {
    match state.tokenize
    case Base =>
      style := TokenBase(conf, stream, state);
    case Quoted(_, _, _) =>
      style := TokenQuoted(conf, stream, state);
    case InComment =>
      style := LongComment(stream, state);
  }

  // ----- tokenLexer (source lines 213-263) -----

  /** `while (scope.type === "coffee" && scope.prev) scope = scope.prev`:
      the loop shared by tokenLexer and external.indent. */
  method UnwindCoffee(st: seq<Scope>) returns (u: seq<Scope>)
    requires WellFormed(st)
    ensures u == Unwound(st)
  {
    u := st;
    while Top(u).kind == Coffee && |u| > 1
      invariant 1 <= |u| <= |st| && u == st[..|u|]
      invariant forall j :: |u| <= j < |st| ==> st[j].kind == Coffee
      decreases |u|
    {
      u := u[..|u| - 1];
    }
    if Top(u).kind != Coffee {
      LastBracketAt(st, |u| - 1);
    }
  }

  /** The unwinding for a closing bracket: pop the coffee scopes above the
      nearest bracket scope, then that scope if `current` is its closer. */
  method CloseBrackets(state: State, current: string)
    requires state.Valid()
    modifies state`scopes
    ensures state.Valid() && state.scopes == ClosedBy(old(state.scopes), current)
  {
    var st := UnwindCoffee(state.scopes);
    if Top(st).kind.Bracket? && current == [Top(st).kind.closer] {
      st := st[..|st| - 1];
    }
    state.scopes := st;
  }

  /** The `return` counting rule. */
  method RuleReturn(state: State, current: string)
    requires state.Valid()
    modifies state`dedent
    ensures state.Valid() && state.Shape() == CountReturn(current, old(state.Shape()))
  {
    if current == "return" {
      state.dedent := state.dedent + 1;
    }
  }

  /** The arrow / "indent" rule. */
  method RuleOpenBlock(conf: Config, stream: Stream, state: State, fetched: Style, current: string)
    requires stream.Valid() && state.Valid() && current == stream.Current()
    modifies state`scopes, state`nextId
    ensures state.Valid()
    ensures state.Shape() == OpenBlock(conf.indentUnit, fetched, current, stream.Eol(), stream.EndColumn(), old(state.Shape()))
  {
    if ((current == "->" || current == "=>") && stream.Eol()) || fetched == IndentSignal {
      Indent(conf, stream, state, Coffee);
    }
  }

  /** The opening bracket rule. */
  method RuleOpenBracket(conf: Config, stream: Stream, state: State, current: string)
    requires stream.Valid() && state.Valid()
    modifies state`scopes, state`nextId
    ensures state.Valid()
    ensures state.Shape() == OpenBracket(conf.indentUnit, current, stream.EndColumn(), old(state.Shape()))
  {
    match FirstAt("[({", 0, current) {
      case Some(i) =>
        Indent(conf, stream, state, Bracket("])}"[i]));
      case None =>
    }
  }

  /** The block keyword rule. */
  method RuleKeywordBlock(conf: Config, stream: Stream, state: State, current: string)
    requires stream.Valid() && state.Valid()
    modifies state`scopes, state`nextId
    ensures state.Valid()
    ensures state.Shape() == OpenKeywordBlock(conf.indentUnit, current, stream.EndColumn(), old(state.Shape()))
  {
    if WordMatch(current, 0, IndentKeywords) > 0 {
      Indent(conf, stream, state, Coffee);
    }
  }

  /** dedent() as one step on the layout; `invalid` is Dedented's flag. */
  method PopScope(stream: Stream, state: State) returns (invalid: bool)
    requires stream.Valid() && state.Valid()
    modifies state`scopes
    ensures state.Valid()
    ensures invalid == Dedented(old(state.scopes), stream.Indentation()).invalid
    ensures state.Shape() == Pop(old(state.Shape()), stream.Indentation())
  {
    invalid := Dedent(stream, state);
  }

  /** The `then` rule. */
  method RuleThen(stream: Stream, state: State, current: string)
    requires stream.Valid() && state.Valid()
    modifies state`scopes
    ensures state.Valid()
    ensures state.Shape() == ThenDedent(current, stream.Indentation(), old(state.Shape()))
  {
    if current == "then" {
      var _ := PopScope(stream, state);
    }
  }

  /** The rules of tokenLexer that open scopes (and the `then` dedent),
      carried out on the state. */
  method ApplyOpenRules(conf: Config, stream: Stream, state: State, fetched: Style,
                        current: string, ghost atEol: bool, ghost col: nat, ghost ind: nat)
    requires stream.Valid() && state.Valid() && current == stream.Current()
    requires atEol == stream.Eol() && col == stream.EndColumn() && ind == stream.Indentation()
    modifies state`scopes, state`dedent, state`nextId
    ensures state.Valid()
    ensures state.Shape() == OpenRules(conf.indentUnit, fetched, current, atEol, col, ind, old(state.Shape()))
  {
    ghost var l0 := state.Shape();
    RuleReturn(state, current);
    ghost var l1 := state.Shape();
    RuleOpenBlock(conf, stream, state, fetched, current);
    ghost var l2 := state.Shape();
    RuleOpenBracket(conf, stream, state, current);
    ghost var l3 := state.Shape();
    RuleKeywordBlock(conf, stream, state, current);
    ghost var l4 := state.Shape();
    RuleThen(stream, state, current);
    assert l1 == CountReturn(current, l0);
    assert l2 == OpenBlock(conf.indentUnit, fetched, current, atEol, col, l1);
    assert l3 == OpenBracket(conf.indentUnit, current, col, l2);
    assert l4 == OpenKeywordBlock(conf.indentUnit, current, col, l3);
  }

  /** The closing bracket rule. */
  method RuleCloseBracket(state: State, current: string)
    requires state.Valid()
    modifies state`scopes
    ensures state.Valid()
    ensures state.Shape() == CloseBracket(current, old(state.Shape()))
  {
    if FirstAt("])}", 0, current).Some? {
      CloseBrackets(state, current);
    }
  }

  /** The rule that ends a `return` statement at the end of the line. */
  method RuleEndReturn(state: State, atEol: bool)
    requires state.Valid()
    modifies state`scopes, state`dedent
    ensures state.Valid()
    ensures state.Shape() == EndReturn(atEol, old(state.Shape()))
  {
    if state.dedent > 0 && atEol && Top(state.scopes).kind == Coffee {
      if |state.scopes| > 1 {
        state.scopes := state.scopes[..|state.scopes| - 1];
      }
      state.dedent := state.dedent - 1;
    }
  }

  /** The rules of tokenLexer that close scopes, carried out on the state. */
  method ApplyCloseRules(stream: Stream, state: State)
    requires stream.Valid() && state.Valid()
    modifies state`scopes, state`dedent
    ensures state.Valid()
    ensures state.Shape() == EndReturn(stream.Eol(), CloseBracket(stream.Current(), old(state.Shape())))
  {
    RuleCloseBracket(state, stream.Current());
    RuleEndReturn(state, stream.Eol());
  }

  /** The rules tokenLexer applies once the token is read: they are
      TokenLayout, carried out on the state. */
  method ApplyRules(conf: Config, stream: Stream, state: State, fetched: Style,
                    current: string, ghost atEol: bool, ghost col: nat, ghost ind: nat) returns (style: Style)
    requires stream.Valid() && state.Valid() && current == stream.Current()
    requires atEol == stream.Eol() && col == stream.EndColumn() && ind == stream.Indentation()
    modifies state`scopes, state`dedent, state`nextId
    ensures state.Valid()
    ensures var r := TokenLayout(conf.indentUnit, fetched, current, atEol, col, ind, old(state.Shape()));
            state.Shape() == r.0 && style == if r.1 then Error else fetched
  {
    ghost var r := TokenLayout(conf.indentUnit, fetched, current, atEol, col, ind, state.Shape());
    ApplyOpenRules(conf, stream, state, fetched, current, atEol, col, ind);
    ghost var l5 := state.Shape();
    if fetched == DedentSignal {
      var invalid := PopScope(stream, state);
      if invalid {
        assert r == (l5, true);
        return Error;
      }
    }
    ghost var l6 := state.Shape();
    ApplyCloseRules(stream, state);
    assert r == (EndReturn(atEol, CloseBracket(current, l6)), false);
    style := fetched;
  }

  /** What tokenLexer met on its way: the first fetch's style `fetched`,
      where that fetch ended (`firstEnd`), the tokenizer and layout it left
      (`tok1`, `mid`), and the style of the second fetch after a lone "."
      (`refetched`), which the source discards. */
  datatype LexTrace = LexTrace(fetched: Style, refetched: Style, firstEnd: nat, tok1: Tokenizer, mid: Layout)

  /** tokenLexer on a line `text` (tab size `tabSize`), from read position
      `from` with token start `start`, tokenizer `tok0` and layout `l0`, to
      read position `pos`, tokenizer `tok`, layout `l` and style `style`: the
      first fetch, then a second fetch after a lone ".", else the structural
      rules. */
  ghost predicate LexerEffect(conf: Config, text: string, tabSize: nat, start: nat, from: nat, tok0: Tokenizer,
                              l0: Layout, pos: nat, tok: Tokenizer, l: Layout, style: Style, t: LexTrace)
    requires tabSize > 0 && start <= from <= |text| && LayoutValid(l0)
  {
    && FirstFetch(conf, text, tabSize, start, from, tok0, l0, t)
    && t.firstEnd <= pos <= |text|
    && (text[start..t.firstEnd] == "." ==> DotRefetch(conf, text, tabSize, start, pos, tok, l, style, t))
    && (text[start..t.firstEnd] != "." ==> RulesApplied(conf, text, tabSize, start, pos, tok, l, style, t))
  }

  /** The first fetch is what the installed tokenizer does; it reads at
      least one character of a line that is not exhausted, and leaves the
      counters alone. */
  ghost predicate FirstFetch(conf: Config, text: string, tabSize: nat, start: nat, from: nat, tok0: Tokenizer,
                             l0: Layout, t: LexTrace)
    requires tabSize > 0 && start <= from <= |text| && LayoutValid(l0)
  {
    && from <= t.firstEnd <= |text| && (from < |text| ==> from < t.firstEnd)
    && LayoutValid(t.mid) && t.mid.dedent == l0.dedent && t.mid.nextId == l0.nextId
    && TokenizeEffect(conf, tok0, text, start, from, ColumnAt(text, Run(text, 0, IsSpace), tabSize),
                      l0.scopes, t.firstEnd, t.tok1, t.mid.scopes, t.fetched)
  }

  /** After a lone ".", a second fetch with the tokenizer the first one left;
      the token is a variable when one or more word characters follow the dot, else an error. */
  ghost predicate DotRefetch(conf: Config, text: string, tabSize: nat, start: nat, pos: nat, tok: Tokenizer,
                             l: Layout, style: Style, t: LexTrace)
    requires tabSize > 0 && start <= t.firstEnd <= pos <= |text| && LayoutValid(t.mid)
  {
    && l.dedent == t.mid.dedent && l.nextId == t.mid.nextId
    && TokenizeEffect(conf, t.tok1, text, start, t.firstEnd, ColumnAt(text, Run(text, 0, IsSpace), tabSize),
                      t.mid.scopes, pos, tok, l.scopes, t.refetched)
    && style == (if DotWord(text[start..pos]) then Style.Variable else Error)
  }

  /** Any other token goes through the structural rules, TokenLayout, and
      its style is "error" when they reject a dedent. */
  ghost predicate RulesApplied(conf: Config, text: string, tabSize: nat, start: nat, pos: nat, tok: Tokenizer,
                               l: Layout, style: Style, t: LexTrace)
    requires tabSize > 0 && start <= t.firstEnd <= pos <= |text| && LayoutValid(t.mid)
  {
    && pos == t.firstEnd && tok == t.tok1
    && var r := TokenLayout(conf.indentUnit, t.fetched, text[start..pos], pos >= |text|,
                            EndColumnAt(text, start, pos, tabSize),
                            ColumnAt(text, Run(text, 0, IsSpace), tabSize), t.mid);
       l == r.0 && style == (if r.1 then Error else t.fetched)
  }

  lemma RulesAppliedIntro(conf: Config, text: string, tabSize: nat, start: nat, pos: nat, current: string,
                          atEol: bool, col: nat, ind: nat, tok: Tokenizer, l: Layout, style: Style, t: LexTrace)
    requires tabSize > 0 && start <= t.firstEnd == pos <= |text| && LayoutValid(t.mid) && tok == t.tok1
    requires current == text[start..pos] && atEol == (pos >= |text|)
    requires col == EndColumnAt(text, start, pos, tabSize)
    requires ind == ColumnAt(text, Run(text, 0, IsSpace), tabSize)
    requires var r := TokenLayout(conf.indentUnit, t.fetched, current, atEol, col, ind, t.mid);
             l == r.0 && style == (if r.1 then Error else t.fetched)
    ensures RulesApplied(conf, text, tabSize, start, pos, tok, l, style, t)
  {
  }

  /** tokenLexer(stream, state), as LexerEffect states it. */
  method TokenLexer(conf: Config, stream: Stream, state: State) returns (style: Style, ghost t: LexTrace)
    requires stream.Valid() && state.Valid()
    modifies stream`pos, state`tokenize, state`scopes, state`dedent, state`nextId
    ensures stream.Valid() && state.Valid()
    ensures LexerEffect(conf, stream.text, stream.tabSize, stream.start, old(stream.pos), old(state.tokenize),
                        old(state.Shape()), stream.pos, state.tokenize, state.Shape(), style, t)
  {
    var first;
    first, t := FetchFirst(conf, stream, state);
    if stream.Current() == "." {
      style, t := Refetch(conf, stream, state, t);
    } else {
      style := RunRules(conf, stream, state, first, t);
    }
  }

  /** The first fetch of tokenLexer. */
  method FetchFirst(conf: Config, stream: Stream, state: State) returns (first: Style, ghost t: LexTrace)
    requires stream.Valid() && state.Valid()
    modifies stream`pos, state`tokenize, state`scopes
    ensures stream.Valid() && state.Valid()
    ensures t == LexTrace(first, first, stream.pos, state.tokenize, state.Shape())
    ensures FirstFetch(conf, stream.text, stream.tabSize, stream.start, old(stream.pos), old(state.tokenize),
                       old(state.Shape()), t)
  {
    first := Tokenize(conf, stream, state);
    t := LexTrace(first, first, stream.pos, state.tokenize, state.Shape());
  }

  /** The second fetch after a lone ".". */
  method Refetch(conf: Config, stream: Stream, state: State, ghost t: LexTrace) returns (style: Style, ghost t2: LexTrace)
    requires stream.Valid() && state.Valid() && LayoutValid(t.mid)
    requires t.firstEnd == stream.pos && t.tok1 == state.tokenize && t.mid == state.Shape()
    modifies stream`pos, state`tokenize, state`scopes
    ensures stream.Valid() && state.Valid()
    ensures t2 == t.(refetched := t2.refetched) && old(stream.pos) <= stream.pos
    ensures DotRefetch(conf, stream.text, stream.tabSize, stream.start, stream.pos, state.tokenize, state.Shape(), style, t2)
  {
    var second := Tokenize(conf, stream, state);
    t2 := t.(refetched := second);
    style := if DotWord(stream.Current()) then Style.Variable else Error;
  }

  /** The structural rules after a token that is not a lone ".". */
  method RunRules(conf: Config, stream: Stream, state: State, fetched: Style, ghost t: LexTrace) returns (style: Style)
    requires stream.Valid() && state.Valid() && LayoutValid(t.mid) && fetched == t.fetched
    requires t.firstEnd == stream.pos && t.tok1 == state.tokenize && t.mid == state.Shape()
    modifies state`scopes, state`dedent, state`nextId
    ensures state.Valid()
    ensures RulesApplied(conf, stream.text, stream.tabSize, stream.start, stream.pos, state.tokenize, state.Shape(), style, t)
  {
    var current := stream.Current();
    ghost var text, tabSize, start, pos := stream.text, stream.tabSize, stream.start, stream.pos;
    ghost var atEol, col, ind := stream.Eol(), stream.EndColumn(), stream.Indentation();
    assert current == text[start..pos] && atEol == (pos >= |text|);
    assert col == EndColumnAt(text, start, pos, tabSize);
    assert ind == ColumnAt(text, Run(text, 0, IsSpace), tabSize);
    style := ApplyRules(conf, stream, state, fetched, current, atEol, col, ind);
    RulesAppliedIntro(conf, text, tabSize, start, pos, current, atEol, col, ind, state.tokenize, state.Shape(), style, t);
  }
}
