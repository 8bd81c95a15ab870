/** What the continuation tokenizers of the CoffeeScript mode find on a line:
    the string/regex tokenizer that tokenFactory builds and the block-comment
    tokenizer longComment. These functions are the specifications that the
    methods TokenQuoted and LongComment (module CoffeeMode) are proved against. */
module Continuations {
  import opened Patterns

  /** Where a string or regex tokenizer stops on a line: just past its
      delimiter, at end of line right after a backslash escape (single-line
      tokens only), or at end of line with the token still open. */
  datatype QuotedEnd = Terminated(end: nat) | EscapedAtEol | Unclosed

  /** The characters that stop `eatWhile(/[^'"\/\\]/)`. */
  predicate IsQuoteOrSlash(c: char) { c == '\'' || c == '"' || c == '/' }

  /** The string/regex tokenizer scanning from `i`: a backslash skips the next
      character; at a quote or slash the delimiter is tried; any other character
      is skipped. */
  function ScanQuoted(s: string, i: nat, delim: string, single: bool): (r: QuotedEnd)
    requires i <= |s|
    ensures r.Terminated? ==> i + |delim| <= r.end && HasAt(s, r.end - |delim|, delim)
    decreases |s| - i
  {
    if i >= |s| then Unclosed
    else if s[i] == '\\' then
      var j := if i + 1 < |s| then i + 2 else i + 1;
      if single && j >= |s| then EscapedAtEol else ScanQuoted(s, j, delim, single)
    else if IsQuoteOrSlash(s[i]) && HasAt(s, i, delim) then Terminated(i + |delim|)
    else ScanQuoted(s, i + 1, delim, single)
  }

  /** Index where the scan stops. */
  function QuotedStop(s: string, r: QuotedEnd): nat
  {
    if r.Terminated? then r.end else |s|
  }

  /** The string/regex tokenizer stops on the line, not before where it
      started. */
  lemma QuotedStopOnLine(s: string, i: nat, delim: string, single: bool)
    requires i <= |s|
    ensures i <= QuotedStop(s, ScanQuoted(s, i, delim, single)) <= |s|
  {
    var r := ScanQuoted(s, i, delim, single);
    assert r.Terminated? ==> HasAt(s, r.end - |delim|, delim);
  }


  /** Skipping plain characters (no quote, slash or backslash) does not
      change where the string/regex tokenizer stops. */
  lemma {:induction false} ScanSkipsPlain(s: string, i: nat, j: nat, delim: string, single: bool)
    requires i <= j <= |s|
    requires forall k :: i <= k < j ==> !IsQuoteOrSlash(s[k]) && s[k] != '\\'
    ensures ScanQuoted(s, i, delim, single) == ScanQuoted(s, j, delim, single)
    decreases j - i
  {
    if i < j {
      ScanSkipsPlain(s, i + 1, j, delim, single);
    }
  }

  /** Skipping positions where `w` does not occur does not change its first
      occurrence. */
  lemma {:induction false} FirstAtSkips(s: string, i: nat, j: nat, w: string)
    requires i <= j <= |s|
    requires forall k :: i <= k < j ==> !HasAt(s, k, w)
    ensures FirstAt(s, i, w) == FirstAt(s, j, w)
    decreases j - i
  {
    if i < j {
      FirstAtSkips(s, i + 1, j, w);
    }
  }

  // ----- properties -----

  /** A delimiter that is a single quote character closes the token on that
      very character. */
  lemma ClosesOnDelimiter(s: string, i: nat, single: bool)
    requires i < |s| && (s[i] == '\'' || s[i] == '"' || s[i] == '/')
    ensures ScanQuoted(s, i, [s[i]], single) == Terminated(i + 1)
  {
    assert s[i..i + 1] == [s[i]];
  }

  /** A backslash always skips the character after it, a delimiter included.
      When that character ends the line only a multi-line token goes on; a
      single-line one stops there (SingleLineEscapeAtEol). */
  lemma EscapeSkips(s: string, i: nat, delim: string, single: bool)
    requires i + 1 < |s| && s[i] == '\\' && (i + 2 < |s| || !single)
    ensures ScanQuoted(s, i, delim, single) == ScanQuoted(s, i + 2, delim, single)
  {
  }

  /** A single-line token stops on a backslash that ends the line or whose
      escaped character does. */
  lemma SingleLineEscapeAtEol(s: string, i: nat, delim: string)
    requires i < |s| && s[i] == '\\' && |s| <= i + 2
    ensures ScanQuoted(s, i, delim, true) == EscapedAtEol
  {
  }

  /** On a stretch without backslashes the tokenizer closes exactly after the
      first occurrence of the delimiter (which begins with a quote or slash),
      and stays open when there is none. */
  lemma {:induction false} ScanWithoutEscapes(s: string, i: nat, delim: string, single: bool)
    requires i <= |s| && |delim| > 0 && IsQuoteOrSlash(delim[0])
    requires forall k :: i <= k < |s| ==> s[k] != '\\'
    ensures ScanQuoted(s, i, delim, single) ==
            match FirstAt(s, i, delim)
            case Some(k) => Terminated(k + |delim|)
            case None => Unclosed
    decreases |s| - i
  {
    if i < |s| {
      assert HasAt(s, i, delim) ==> s[i] == delim[0];
      if !(IsQuoteOrSlash(s[i]) && HasAt(s, i, delim)) {
        ScanWithoutEscapes(s, i + 1, delim, single);
      }
    }
  }

  /** A multi-line token never stops at end of line after an escape: it either
      closes or stays open for the next line. */
  lemma {:induction false} MultiLineNeverEscapesAtEol(s: string, i: nat, delim: string)
    requires i <= |s|
    ensures ScanQuoted(s, i, delim, false) != EscapedAtEol
    decreases |s| - i
  {
    if i < |s| {
      if s[i] == '\\' {
        MultiLineNeverEscapesAtEol(s, if i + 1 < |s| then i + 2 else i + 1, delim);
      } else if !(IsQuoteOrSlash(s[i]) && HasAt(s, i, delim)) {
        MultiLineNeverEscapesAtEol(s, i + 1, delim);
      }
    }
  }
}
