/** The scope stack of the CoffeeScript mode as a value. The source keeps a
    singly linked list of scope objects whose head is `state.scope`; here the
    list is a sequence with the bottom scope first and the head (the "top") last,
    so `prev` of the scope at index k is the scope at index k - 1.

    Scope objects are compared by identity in the source (external.token keeps a
    reference to one of them across a call), so every scope carries an `id` that
    no other scope of the same stack ever has. */
module Scopes {
  import opened Patterns

  /** `type` of a scope: "coffee" for an indentation scope, or the closing
      bracket character of a bracket scope. */
  datatype ScopeKind = Coffee | Bracket(closer: char)

  /** `align`: null, false or true. */
  datatype Align = Unset | Unaligned | Aligned

  /** A coffee scope has no alignOffset in the source (null or undefined); it
      is 0 here, the number `null` converts to. */
  datatype Scope = Scope(id: nat, offset: nat, kind: ScopeKind, align: Align, alignOffset: nat)

  predicate IdsIncreasing(st: seq<Scope>)
  {
    forall i, j :: 0 <= i < j < |st| ==> st[i].id < st[j].id
  }

  /** A stack reachable from startState: never empty, a coffee scope at the
      bottom, scope ids unique (increasing from bottom to top). */
  predicate WellFormed(st: seq<Scope>)
  {
    |st| >= 1 && st[0].kind == Coffee && IdsIncreasing(st)
  }

  function Top(st: seq<Scope>): Scope
    requires |st| >= 1
  {
    st[|st| - 1]
  }

  /** The stack startState creates: one coffee scope at the base column. */
  function Initial(baseColumn: nat): (st: seq<Scope>)
    ensures WellFormed(st) && |st| == 1
  {
    [Scope(0, baseColumn, Coffee, Unaligned, 0)]
  }

  // ----- indent (source lines 159-185) -----

  /** Index of the topmost coffee scope of `st`, if any. */
  function LastCoffee(st: seq<Scope>): (r: Option<nat>)
    ensures r.Some? ==> r.value < |st| && st[r.value].kind == Coffee
    ensures r.Some? ==> forall j :: r.value < j < |st| ==> st[j].kind != Coffee
    ensures r.None? ==> forall j :: 0 <= j < |st| ==> st[j].kind != Coffee
  {
    if st == [] then None
    else if Top(st).kind == Coffee then Some(|st| - 1)
    else LastCoffee(st[..|st| - 1])
  }

  /** The offset indent() gives a new scope: one indent unit past the nearest
      coffee scope strictly below the current top, or 0 when there is none. */
  function NewOffset(st: seq<Scope>, unit: nat): (r: nat)
    requires |st| >= 1
    ensures forall k :: 0 <= k < |st| - 1 && st[k].kind == Coffee
              && (forall j :: k < j < |st| - 1 ==> st[j].kind != Coffee)
              ==> r == st[k].offset + unit
    ensures (forall j :: 0 <= j < |st| - 1 ==> st[j].kind != Coffee) ==> r == 0
  {
    match LastCoffee(st[..|st| - 1])
    case Some(k) => st[k].offset + unit
    case None => 0
  }

  /** The stack after indent(stream, state, kind): a scope above the old top,
      whose prev is the old top; a bracket scope starts with align null and
      alignOffset `col` (the token's column plus its length), a coffee scope with
      align false; pushing a coffee scope turns a true align of the old top to
      false. */
  function Pushed(st: seq<Scope>, kind: ScopeKind, unit: nat, col: nat, id: nat): (r: seq<Scope>)
    requires WellFormed(st)
    requires forall k :: 0 <= k < |st| ==> st[k].id < id
    ensures WellFormed(r) && |r| == |st| + 1 && r[..|st| - 1] == st[..|st| - 1]
    ensures st[0].align != Aligned ==> r[0] == st[0]
    ensures r[|st| - 1] == if kind == Coffee && Top(st).align == Aligned
                           then Top(st).(align := Unaligned) else Top(st)
    ensures Top(r).id == id && Top(r).kind == kind && Top(r).offset == NewOffset(st, unit)
    ensures kind == Coffee ==> Top(r).align == Unaligned
    ensures kind != Coffee ==> Top(r).align == Unset && Top(r).alignOffset == col
  {
    var top := if kind == Coffee && Top(st).align == Aligned
               then Top(st).(align := Unaligned) else Top(st);
    var scope := if kind == Coffee then Scope(id, NewOffset(st, unit), kind, Unaligned, 0)
                 else Scope(id, NewOffset(st, unit), kind, Unset, col);
    ReplaceTopAndPush(st, top, scope);
    st[..|st| - 1] + [top, scope]
  }

  /** Replacing the top of a well-formed stack by a scope of the same object
      and pushing a newer one above it keeps the stack well formed. */
  lemma ReplaceTopAndPush(st: seq<Scope>, top: Scope, scope: Scope)
    requires WellFormed(st) && top.id == Top(st).id && top.kind == Top(st).kind
    requires Top(st).id < scope.id
    ensures var r := st[..|st| - 1] + [top, scope];
            WellFormed(r) && |r| == |st| + 1 && r[..|st| - 1] == st[..|st| - 1]
  {
    var r := st[..|st| - 1] + [top, scope];
    assert forall k :: 0 <= k < |st| - 1 ==> r[k] == st[k];
    assert forall k :: 0 <= k < |st| ==> r[k].id == st[k].id;
  }

  /** No scope of a pushed stack is newer than the pushed one. */
  lemma PushedIdsBelow(st: seq<Scope>, kind: ScopeKind, unit: nat, col: nat, id: nat)
    requires WellFormed(st)
    requires forall k :: 0 <= k < |st| ==> st[k].id < id
    ensures var r := Pushed(st, kind, unit, col, id);
            forall k :: 0 <= k < |r| ==> r[k].id <= id
  {
    var r := Pushed(st, kind, unit, col, id);
    assert forall k :: 0 <= k < |st| - 1 ==> r[k] == r[..|st| - 1][k] == st[..|st| - 1][k] == st[k];
  }

  // ----- dedent (source lines 186-212) -----

  /** Index of the topmost scope of `st` whose offset is `ind`, if any. */
  function LastWithOffset(st: seq<Scope>, ind: nat): (r: Option<nat>)
    ensures r.Some? ==> r.value < |st| && st[r.value].offset == ind
    ensures r.Some? ==> forall j :: r.value < j < |st| ==> st[j].offset != ind
    ensures r.None? ==> forall j :: 0 <= j < |st| ==> st[j].offset != ind
  {
    if st == [] then None
    else if Top(st).offset == ind then Some(|st| - 1)
    else LastWithOffset(st[..|st| - 1], ind)
  }

  /** dedent's answer (true: the indentation matches no enclosing scope) and
      the stack it leaves. */
  datatype DedentResult = DedentResult(invalid: bool, stack: seq<Scope>)

  /** dedent(stream, state) for a line whose indentation is `ind`. */
  function Dedented(st: seq<Scope>, ind: nat): (r: DedentResult)
    requires WellFormed(st)
    ensures WellFormed(r.stack) && r.stack[0] == st[0]
    ensures r.stack <= st
    // an invalid dedent happens exactly when the top is a coffee scope and no
    // strict ancestor has the line's indentation; it changes nothing
    ensures r.invalid <==> |st| > 1 && Top(st).kind == Coffee
                           && forall j :: 0 <= j < |st| - 1 ==> st[j].offset != ind
    ensures r.invalid ==> r.stack == st
    // a valid dedent under a coffee top pops down to the nearest scope at that
    // indentation, popping nothing that has it
    ensures |st| > 1 && Top(st).kind == Coffee && !r.invalid ==>
              Top(r.stack).offset == ind
              && forall j :: |r.stack| <= j < |st| ==> st[j].offset != ind
    // under a bracket top it pops exactly that scope
    ensures |st| > 1 && Top(st).kind != Coffee ==> r.stack == st[..|st| - 1]
    ensures |st| == 1 ==> r == DedentResult(false, st)
  {
    if |st| == 1 then DedentResult(false, st)
    else if Top(st).kind == Coffee then
      match LastWithOffset(st[..|st| - 1], ind)
      case None => DedentResult(true, st)
      case Some(k) =>
        var m := LastWithOffset(st, ind).value;
        DedentResult(false, st[..m + 1])
    else DedentResult(false, st[..|st| - 1])
  }

  /** An offset found below the top is found in the whole stack too. */
  lemma LastWithOffsetBelowTop(st: seq<Scope>, ind: nat)
    requires |st| >= 1 && LastWithOffset(st[..|st| - 1], ind).Some?
    ensures LastWithOffset(st, ind).Some?
  {
    if Top(st).offset != ind {
      var k := LastWithOffset(st[..|st| - 1], ind).value;
      assert st[k] == st[..|st| - 1][k];
      LastWithOffsetAt(st, ind, k);
    }
  }

  // ----- closing brackets (source lines 247-255) -----

  /** Index of the topmost bracket scope of `st`, if any. */
  function LastBracket(st: seq<Scope>): (r: Option<nat>)
    ensures r.Some? ==> r.value < |st| && st[r.value].kind != Coffee
    ensures r.Some? ==> forall j :: r.value < j < |st| ==> st[j].kind == Coffee
    ensures r.None? ==> forall j :: 0 <= j < |st| ==> st[j].kind == Coffee
  {
    if st == [] then None
    else if Top(st).kind != Coffee then Some(|st| - 1)
    else LastBracket(st[..|st| - 1])
  }

  /** The stack after `while (state.scope.type === "coffee" && state.scope.prev)`
      pops: down to the nearest bracket scope, or to the bottom. */
  function Unwound(st: seq<Scope>): (r: seq<Scope>)
    requires WellFormed(st)
    ensures WellFormed(r) && r <= st
    ensures Top(r).kind != Coffee || |r| == 1
    ensures forall j :: |r| <= j < |st| ==> st[j].kind == Coffee
  {
    match LastBracket(st)
    case Some(k) => st[..k + 1]
    case None => st[..1]
  }

  /** The stack after the current token `current`, one of "])}"'s substrings,
      closes: unwind the coffee scopes, then pop the bracket scope on top if its
      closer is the whole token. */
  function ClosedBy(st: seq<Scope>, current: string): (r: seq<Scope>)
    requires WellFormed(st)
    ensures WellFormed(r) && r <= st && r[0] == st[0]
    // only coffee scopes are popped, and at most one bracket scope: the one
    // just below them, when `current` is its closer
    ensures forall j :: |r| <= j < |st| ==>
              st[j].kind == Coffee || (j == |r| && st[j].kind.Bracket? && current == [st[j].kind.closer])
  {
    var u := Unwound(st);
    if Top(u).kind.Bracket? && current == [Top(u).kind.closer] then u[..|u| - 1] else u
  }

  // ----- external.token (source lines 281-288) -----

  /** The stack after `fillAlign.align = a` on the scope object `id`: that
      scope, if it is still on the stack, gets the new align. */
  function WithAlign(st: seq<Scope>, id: nat, a: Align): (r: seq<Scope>)
    requires WellFormed(st)
    ensures WellFormed(r) && |r| == |st|
    ensures forall k :: 0 <= k < |st| ==>
              r[k] == if st[k].id == id then st[k].(align := a) else st[k]
  {
    seq(|st|, k requires 0 <= k < |st| => if st[k].id == id then st[k].(align := a) else st[k])
  }

  /** Setting the align of the top scope by its id changes only that scope. */
  lemma WithAlignOfTop(st: seq<Scope>, top: Scope, a: Align)
    requires WellFormed(st + [top]) && forall k :: 0 <= k < |st| ==> st[k].id != top.id
    ensures WithAlign(st + [top], top.id, a) == st + [top.(align := a)]
  {
    var r := WithAlign(st + [top], top.id, a);
    assert forall k :: 0 <= k < |st| ==> r[k] == (st + [top])[k] == st[k];
  }

  /** The stack after tokenBase, at the start of a line, turns a null align
      of the top scope to false. */
  function SettleTop(st: seq<Scope>): (r: seq<Scope>)
    requires WellFormed(st)
    ensures WellFormed(r) && |r| == |st| && r[..|st| - 1] == st[..|st| - 1]
    ensures Top(r) == if Top(st).align == Unset then Top(st).(align := Unaligned) else Top(st)
  {
    if Top(st).align == Unset then st[..|st| - 1] + [Top(st).(align := Unaligned)] else st
  }

  // ----- external.indent (source lines 298-318) -----

  /** The indentation external.indent asks for a line beginning with `text`
      while the base tokenizer is installed. A line starting with a closing
      bracket looks past the coffee scopes above the nearest bracket scope;
      `closes` is true when that scope is the one the character closes. An
      aligned scope answers with its alignment column (one less when the line
      closes it), any other with its offset, or with the offset of the scope
      below it when the line closes it. */
  function IndentOf(st: seq<Scope>, text: string): (r: int)
    requires WellFormed(st)
    // a line that does not start with a closing bracket lines up with the
    // innermost scope: its alignment column when aligned, else its offset
    ensures (|text| == 0 || text[0] !in "])}") ==>
              r == if Top(st).align == Aligned then Top(st).alignOffset else Top(st).offset
  {
    var closer := |text| > 0 && text[0] in "])}";
    var u := if closer then Unwound(st) else st;
    var closes := closer && Top(u).kind == Bracket(text[0]);
    if Top(u).align == Aligned then Top(u).alignOffset - (if closes then 1 else 0)
    else if closes then u[|u| - 2].offset
    else Top(u).offset
  }

  // ----- properties -----

  /** The topmost bracket scope is at k when every scope above k is coffee. */
  lemma {:induction false} LastBracketAt(st: seq<Scope>, k: nat)
    requires k < |st| && st[k].kind != Coffee
    requires forall j :: k < j < |st| ==> st[j].kind == Coffee
    ensures LastBracket(st) == Some(k)
  {
    if k < |st| - 1 {
      LastBracketAt(st[..|st| - 1], k);
    }
  }

  /** The topmost coffee scope is at k when no scope above k is coffee. */
  lemma {:induction false} LastCoffeeAt(st: seq<Scope>, k: nat)
    requires k < |st| && st[k].kind == Coffee
    requires forall j :: k < j < |st| ==> st[j].kind != Coffee
    ensures LastCoffee(st) == Some(k)
  {
    if k < |st| - 1 {
      LastCoffeeAt(st[..|st| - 1], k);
    }
  }

  /** The topmost scope at indentation `ind` is at k when no scope above k has it. */
  lemma {:induction false} LastWithOffsetAt(st: seq<Scope>, ind: nat, k: nat)
    requires k < |st| && st[k].offset == ind
    requires forall j :: k < j < |st| ==> st[j].offset != ind
    ensures LastWithOffset(st, ind) == Some(k)
  {
    if k < |st| - 1 {
      LastWithOffsetAt(st[..|st| - 1], ind, k);
    }
  }

  /** An open bracket followed by its closer leaves the stack as it was, even
      when coffee scopes were pushed above the bracket scope in between. */
  lemma BracketRoundTrip(st: seq<Scope>, b: Scope, extra: seq<Scope>)
    requires WellFormed(st) && b.kind.Bracket?
    requires forall k :: 0 <= k < |extra| ==> extra[k].kind == Coffee
    requires WellFormed(st + [b] + extra)
    ensures ClosedBy(st + [b] + extra, [b.kind.closer]) == st
  {
    var whole := st + [b] + extra;
    var k := |st|;
    assert forall j :: k < j < |whole| ==> whole[j] == extra[j - k - 1];
    LastBracketAt(whole, k);
    assert whole[..k + 1][..k] == st;
  }

  /** A closer that is not the tag of the topmost bracket scope unwinds the
      coffee scopes above that bracket scope and keeps the bracket scope. */
  lemma MismatchKeepsBracket(st: seq<Scope>, b: Scope, extra: seq<Scope>, current: string)
    requires WellFormed(st) && b.kind.Bracket?
    requires forall k :: 0 <= k < |extra| ==> extra[k].kind == Coffee
    requires WellFormed(st + [b] + extra)
    requires current != [b.kind.closer]
    ensures ClosedBy(st + [b] + extra, current) == st + [b]
  {
    var whole := st + [b] + extra;
    var k := |st|;
    assert forall j :: k < j < |whole| ==> whole[j] == extra[j - k - 1];
    LastBracketAt(whole, k);
    assert whole[..k + 1] == st + [b];
  }

  /** With no bracket scope on the stack, a closer unwinds to the bottom
      scope. */
  lemma NoBracketUnwindsToBottom(st: seq<Scope>, current: string)
    requires WellFormed(st)
    requires forall k :: 1 <= k < |st| ==> st[k].kind == Coffee
    ensures ClosedBy(st, current) == st[..1]
  {
    AllCoffeeNoBracket(st);
  }

  /** A stack of coffee scopes only has no topmost bracket scope. */
  lemma {:induction false} AllCoffeeNoBracket(st: seq<Scope>)
    requires forall k :: 0 <= k < |st| ==> st[k].kind == Coffee
    ensures LastBracket(st) == None
  {
    if st != [] {
      AllCoffeeNoBracket(st[..|st| - 1]);
    }
  }

  /** Pushing a bracket scope and then closing it restores the stack. */
  lemma PushThenClose(st: seq<Scope>, c: char, unit: nat, col: nat, id: nat)
    requires WellFormed(st)
    requires forall k :: 0 <= k < |st| ==> st[k].id < id
    ensures ClosedBy(Pushed(st, Bracket(c), unit, col, id), [c]) == st
  {
    var p := Pushed(st, Bracket(c), unit, col, id);
    PushedBracketExtends(st, c, unit, col, id);
    assert p == st + [Top(p)] + [];
    BracketRoundTrip(st, Top(p), []);
  }

  /** Pushing a bracket scope leaves the stack below it untouched. */
  lemma PushedBracketExtends(st: seq<Scope>, c: char, unit: nat, col: nat, id: nat)
    requires WellFormed(st)
    requires forall k :: 0 <= k < |st| ==> st[k].id < id
    ensures var p := Pushed(st, Bracket(c), unit, col, id);
            p == st + [Top(p)] && Top(p).kind == Bracket(c)
  {
    var p := Pushed(st, Bracket(c), unit, col, id);
    SameBelowLast(p, st);
  }

  /** A stack one longer than `st` that agrees with it up to and including
      st's top is `st` with one scope pushed. */
  lemma SameBelowLast(p: seq<Scope>, st: seq<Scope>)
    requires |st| >= 1 && |p| == |st| + 1
    requires p[..|st| - 1] == st[..|st| - 1] && p[|st| - 1] == st[|st| - 1]
    ensures p == st + [p[|st|]]
  {
    var n := |st| - 1;
    forall k | 0 <= k < n
      ensures p[k] == st[k]
    {
      assert p[k] == p[..n][k] && st[k] == st[..n][k];
    }
  }

  /** Pushing onto the bare bottom scope gives offset 0, whatever the bottom's
      own offset: the search for a coffee scope starts below the top. */
  lemma PushOnBottomIsZero(st: seq<Scope>, unit: nat)
    requires WellFormed(st) && |st| == 1
    ensures NewOffset(st, unit) == 0
  {
  }

  /** A scope pushed on top of a coffee scope is one indent unit deeper than
      that coffee scope. */
  lemma NestedOffset(st: seq<Scope>, kind: ScopeKind, unit: nat, col: nat, id: nat)
    requires WellFormed(st) && Top(st).kind == Coffee
    requires forall k :: 0 <= k < |st| ==> st[k].id < id
    ensures NewOffset(Pushed(st, kind, unit, col, id), unit) == Top(st).offset + unit
  {
    var p := Pushed(st, kind, unit, col, id);
    assert p[..|p| - 1] == st[..|st| - 1] + [p[|st| - 1]];
  }

  /** A line that starts with the closer of an aligned bracket scope, with
      only coffee scopes above it, lines up one column before the alignment
      column. */
  lemma ClosingLineAligned(st: seq<Scope>, b: Scope, extra: seq<Scope>, rest: string)
    requires WellFormed(st + [b] + extra) && b.kind.Bracket? && b.kind.closer in "])}"
    requires b.align == Aligned
    requires forall k :: 0 <= k < |extra| ==> extra[k].kind == Coffee
    ensures IndentOf(st + [b] + extra, [b.kind.closer] + rest) == b.alignOffset - 1
  {
    var whole := st + [b] + extra;
    var k := |st|;
    assert forall j :: k < j < |whole| ==> whole[j] == extra[j - k - 1];
    LastBracketAt(whole, k);
    assert Top(Unwound(whole)) == b;
  }

  /** A line that starts with a closing bracket of another kind than the
      nearest bracket scope's lines up with that bracket scope, as a line
      inside it would. */
  lemma ClosingLineMismatched(st: seq<Scope>, b: Scope, extra: seq<Scope>, c: char, rest: string)
    requires WellFormed(st + [b] + extra) && b.kind.Bracket? && c in "])}" && c != b.kind.closer
    requires forall k :: 0 <= k < |extra| ==> extra[k].kind == Coffee
    ensures IndentOf(st + [b] + extra, [c] + rest) == if b.align == Aligned then b.alignOffset else b.offset
  {
    var whole := st + [b] + extra;
    var k := |st|;
    assert forall j :: k < j < |whole| ==> whole[j] == extra[j - k - 1];
    LastBracketAt(whole, k);
    assert Top(Unwound(whole)) == b;
  }

  /** With no bracket scope open, a line that starts with a closing bracket
      lines up with the bottom scope. */
  lemma ClosingLineWithoutBracket(st: seq<Scope>, c: char, rest: string)
    requires WellFormed(st) && c in "])}"
    requires forall k :: 0 <= k < |st| ==> st[k].kind == Coffee
    ensures IndentOf(st, [c] + rest) == if st[0].align == Aligned then st[0].alignOffset else st[0].offset
  {
    AllCoffeeNoBracket(st);
    assert Unwound(st) == st[..1];
  }

  /** A line that starts with the closer of a bracket scope that is not
      aligned is indented like the scope below that bracket scope, which is
      the top scope once the bracket closes. */
  lemma ClosingLineUnaligned(st: seq<Scope>, b: Scope, extra: seq<Scope>, rest: string)
    requires WellFormed(st) && WellFormed(st + [b] + extra) && b.kind.Bracket? && b.kind.closer in "])}"
    requires b.align != Aligned
    requires forall k :: 0 <= k < |extra| ==> extra[k].kind == Coffee
    ensures IndentOf(st + [b] + extra, [b.kind.closer] + rest) == Top(st).offset
    ensures IndentOf(st + [b] + extra, [b.kind.closer] + rest)
            == Top(ClosedBy(st + [b] + extra, [b.kind.closer])).offset
  {
    var whole := st + [b] + extra;
    var k := |st|;
    assert forall j :: k < j < |whole| ==> whole[j] == extra[j - k - 1];
    LastBracketAt(whole, k);
    assert Unwound(whole) == st + [b];
    var u := st + [b];
    assert Top(u) == b && u[|u| - 2] == Top(st);
    assert ([b.kind.closer] + rest)[0] == b.kind.closer;
    BracketRoundTrip(st, b, extra);
  }
}
