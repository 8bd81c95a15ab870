/** The entry points of the mode object that the host calls per token and
    per line (external.token and external.indent, source lines 265-318),
    around tokenLexer. Source: bin/coffeescript.js. */
module CoffeeExternal {
  import opened Scopes
  import opened Streams
  import opened Structure
  import opened CoffeeMode

  /** What tokenLexer reads and leaves: the stream position, the installed
      tokenizer and the layout of the scope stack. */
  datatype Snapshot = Snapshot(pos: nat, tok: Tokenizer, layout: Layout)

  /** tokenLexer as external.token relies on it: on a line that is not
      exhausted, with the token starting at the read position, it reads at
      least one character and goes from `before` to `after` as LexerEffect
      states. */
  method TokenLexerStep(conf: Config, stream: Stream, state: State)
    returns (style: Style, ghost before: Snapshot, ghost after: Snapshot, ghost t: LexTrace)
    requires stream.Valid() && state.Valid() && stream.start == stream.pos < |stream.text|
    modifies stream`pos, state`tokenize, state`scopes, state`dedent, state`nextId
    ensures stream.Valid() && state.Valid() && before.pos < after.pos
    ensures before == Snapshot(old(stream.pos), old(state.tokenize), old(state.Shape()))
    ensures after == Snapshot(stream.pos, state.tokenize, state.Shape())
    ensures LayoutValid(before.layout) && LayoutValid(after.layout) && before.pos <= |stream.text|
    ensures LexerEffect(conf, stream.text, stream.tabSize, before.pos, before.pos, before.tok, before.layout,
                        after.pos, after.tok, after.layout, style, t)
  {
    before := Snapshot(stream.pos, state.tokenize, state.Shape());
    style, t := TokenLexer(conf, stream, state);
    after := Snapshot(stream.pos, state.tokenize, state.Shape());
  }

  /** external.token(stream, state). When the top scope's align is still
      null (a bracket scope that has seen no token yet) that scope object is
      remembered: at the start of a line its align becomes false, which
      gives the layout tokenLexer starts from (`before`); tokenLexer leaves
      `after`; then the remembered scope's align becomes true when the token
      was neither null nor a comment, whether or not it is still the top. */
  method Token(conf: Config, stream: Stream, state: State)
    returns (style: Style, ghost before: Snapshot, ghost after: Snapshot, ghost t: LexTrace)
    requires stream.Valid() && state.Valid() && stream.start == stream.pos < |stream.text|
    modifies stream`pos, state`tokenize, state`scopes, state`dedent, state`nextId
    ensures stream.Valid() && state.Valid() && before.pos < after.pos
    ensures var top := old(Top(state.scopes));
            before == Snapshot(old(stream.pos), old(state.tokenize),
                               old(state.Shape()).(scopes := if top.align == Unset && old(stream.pos) == 0
                                                            then WithAlign(old(state.scopes), top.id, Unaligned)
                                                            else old(state.scopes)))
    ensures LayoutValid(before.layout) && LayoutValid(after.layout) && before.pos <= |stream.text|
    ensures LexerEffect(conf, stream.text, stream.tabSize, before.pos, before.pos, before.tok, before.layout,
                        after.pos, after.tok, after.layout, style, t)
    ensures var top := old(Top(state.scopes));
            && after.pos == stream.pos && after.tok == state.tokenize
            && state.Shape() == after.layout.(scopes := if top.align == Unset && style != Null && style != Comment
                                                        then WithAlign(after.layout.scopes, top.id, Aligned)
                                                        else after.layout.scopes)
  {
    var top := Top(state.scopes);
    var fill := top.align == Unset;
    ghost var bottom := state.bottom;
    assert fill ==> top.id != bottom.id by {
      if fill {
        UnsetIsNoBottom(state.scopes, bottom);
      }
    }
    if fill && stream.Sol() {
      SetAlign(state, top.id, Unaligned);
    }
    style, before, after, t := TokenLexerStep(conf, stream, state);
    if fill && style != Null && style != Comment {
      SetAlign(state, top.id, Aligned);
    }
  }

  /** `scope.align = a` on the scope object with identity `id`, which is not
      the bottom scope. */
  method SetAlign(state: State, id: nat, a: Align)
    requires state.Valid() && id != state.scopes[0].id
    modifies state`scopes
    ensures state.Valid() && state.scopes == WithAlign(old(state.scopes), id, a)
  {
    state.scopes := WithAlign(state.scopes, id, a);
  }

  /** A scope whose align is still null is not the bottom scope, whose align
      is never null. Token needs it before both of its SetAlign calls, which may
      change any scope but the bottom one. */
  lemma UnsetIsNoBottom(st: seq<Scope>, bottom: Scope)
    requires WellFormed(st) && st[0] == bottom && bottom.align == Unaligned && Top(st).align == Unset
    ensures Top(st).id != bottom.id
  {
    assert |st| > 1;
    assert st[0].id < st[|st| - 1].id;
  }

  /** external.indent(state, text): 0 inside a string, regex or block
      comment, else IndentOf on the scope stack. */
  method IndentFor(state: State, text: string) returns (r: int)
    requires state.Valid()
    ensures r == if state.tokenize == Base then IndentOf(state.scopes, text) else 0
  {
    if state.tokenize != Base {
      return 0;
    }
    var u := state.scopes;
    var closer := |text| > 0 && text[0] in "])}";
    if closer {
      u := UnwindCoffee(u);
    }
    var closes := closer && Top(u).kind == Bracket(text[0]);
    if Top(u).align == Aligned {
      r := Top(u).alignOffset - (if closes then 1 else 0);
    } else if closes {
      r := u[|u| - 2].offset;
    } else {
      r := Top(u).offset;
    }
  }
}
