/** The line stream the host hands to the mode: one line of text, the index
    where the current token began (`start`) and the read position (`pos`).
    Only the operations the mode uses are modelled. Columns count a tab as a
    move to the next multiple of `tabSize`. */
module Streams {
  import opened Patterns

  /** Column reached after the first `k` characters of `s`. */
  function ColumnAt(s: string, k: nat, tabSize: nat): (c: nat)
    requires k <= |s| && tabSize > 0
    ensures (forall j :: 0 <= j < k ==> s[j] != '\t') ==> c == k
    ensures c >= k
  {
    if k == 0 then 0
    else
      var n := ColumnAt(s, k - 1, tabSize);
      if s[k - 1] == '\t' then n + tabSize - n % tabSize else n + 1
  }

  /** Column just past the characters `start..pos` of `s`: the column of
      `start` plus one per character, as `column() + current().length`
      counts it. */
  function EndColumnAt(s: string, start: nat, pos: nat, tabSize: nat): (c: nat)
    requires start <= pos <= |s| && tabSize > 0
    ensures c >= pos
  {
    ColumnAt(s, start, tabSize) + (pos - start)
  }

  class Stream {
    const text: string
    const tabSize: nat
    var start: nat
    var pos: nat

    ghost predicate Valid()
      reads this
    {
      start <= pos <= |text| && tabSize > 0
    }

    constructor (line: string, tabSize: nat)
      requires tabSize > 0
      ensures Valid() && text == line && this.tabSize == tabSize
      ensures start == 0 && pos == 0
    {
      text := line;
      this.tabSize := tabSize;
      start, pos := 0, 0;
    }

    predicate Sol()
      reads this
    {
      pos == 0
    }

    predicate Eol()
      reads this
    {
      pos >= |text|
    }

    /** The text of the token read so far. */
    function Current(): string
      reads this
      requires Valid()
    {
      text[start..pos]
    }

    /** Column of the token's start. */
    function Column(): nat
      reads this
      requires Valid()
    {
      ColumnAt(text, start, tabSize)
    }

    /** Column just past the token read so far (`column()` plus the length
        of `current()`). */
    function EndColumn(): nat
      reads this
      requires Valid()
    {
      EndColumnAt(text, start, pos, tabSize)
    }

    /** Width of the line's leading whitespace. */
    function Indentation(): nat
      requires tabSize > 0
    {
      ColumnAt(text, Run(text, 0, IsSpace), tabSize)
    }

    /** Skip whitespace; true when some was skipped. */
    method EatSpace() returns (ate: bool)
      requires Valid()
      modifies this`pos
      ensures Valid()
      ensures pos == old(pos) + Run(text, old(pos), IsSpace)
      ensures ate == (pos > old(pos))
    {
      var from := pos;
      while pos < |text| && IsSpace(text[pos])
        invariant from <= pos <= |text|
        invariant forall k :: from <= k < pos ==> IsSpace(text[k])
        invariant Run(text, from, IsSpace) == pos - from + Run(text, pos, IsSpace)
      {
        pos := pos + 1;
      }
      ate := pos > from;
    }

    /** Skip characters satisfying `p`; true when some were skipped. */
    method EatWhile(p: char -> bool) returns (ate: bool)
      requires Valid()
      modifies this`pos
      ensures Valid()
      ensures pos == old(pos) + Run(text, old(pos), p)
      ensures ate == (pos > old(pos))
    {
      var from := pos;
      while pos < |text| && p(text[pos])
        invariant from <= pos <= |text|
        invariant Run(text, from, p) == pos - from + Run(text, pos, p)
      {
        pos := pos + 1;
      }
      ate := pos > from;
    }

    /** Consume the next character if it satisfies `p`. */
    method Eat(p: char -> bool) returns (ate: bool)
      requires Valid()
      modifies this`pos
      ensures Valid()
      ensures ate == (old(pos) < |text| && p(text[old(pos)]))
      ensures pos == if ate then old(pos) + 1 else old(pos)
    {
      ate := pos < |text| && p(text[pos]);
      if ate {
        pos := pos + 1;
      }
    }

    /** Consume `w` when the rest of the line starts with it. */
    method Match(w: string) returns (matched: bool)
      requires Valid()
      modifies this`pos
      ensures Valid()
      ensures matched == HasAt(text, old(pos), w)
      ensures pos == if matched then old(pos) + |w| else old(pos)
    {
      matched := pos + |w| <= |text| && text[pos..pos + |w|] == w;
      if matched {
        pos := pos + |w|;
      }
    }

    /** Consume the next character, if any. */
    method Next()
      requires Valid()
      modifies this`pos
      ensures Valid()
      ensures pos == if old(pos) < |text| then old(pos) + 1 else old(pos)
    {
      if pos < |text| {
        pos := pos + 1;
      }
    }

    /** Move the read position to `to` (a regex match consumed, or backUp). */
    method SetPos(to: nat)
      requires Valid() && start <= to <= |text|
      modifies this`pos
      ensures Valid() && pos == to
    {
      pos := to;
    }
  }
}
