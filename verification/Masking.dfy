/** Masking comments and string literals out of TypeScript sources, so that later scans
    see code only and positions stay the same. */
module Masking {
  import opened Prelude

  // ---- the reference lexer: one character at a time ----

  /** What the character being read is part of. */
  datatype Mode =
    | Code
    | LineOpen       // at the second slash of //
    | Line           // inside a line comment
    | BlockOpen      // at the star of /*
    | Block          // inside a block comment
    | BlockClose     // at the slash of */
    | Quoted(quote: char)
    | Escaped(quote: char)

  predicate IsQuote(c: char) { c == '\'' || c == '"' || c == '`' }

  /** The mode after reading c in a mode, with one character of lookahead. */
  function NextMode(m: Mode, c: char, ahead: Option<char>): Mode {
    match m
    case Code =>
      if c == '/' && ahead == Some('/') then LineOpen
      else if c == '/' && ahead == Some('*') then BlockOpen
      else if IsQuote(c) then Quoted(c)
      else Code
    case LineOpen => AfterLine(ahead)
    case Line => AfterLine(ahead)
    case BlockOpen => Block
    case Block => if c == '*' && ahead == Some('/') then BlockClose else Block
    case BlockClose => Code
    case Quoted(q) =>
      if c == '\n' then (if q == '`' then Quoted(q) else Code)
      else if c == '\\' && q != '`' then Escaped(q)
      else if c == q then Code
      else Quoted(q)
    case Escaped(q) => Quoted(q)
  }

  /** A line comment ends just before the line break. */
  function AfterLine(ahead: Option<char>): Mode {
    if ahead == Some('\n') then Code else Line
  }

  /** Characters that survive: code that opens no comment or string, and line breaks other
      than escaped ones. */
  predicate Survives(m: Mode, c: char, ahead: Option<char>) {
    match m
    case Code => NextMode(m, c, ahead) == Code
    case Block => c == '\n'
    case Quoted(_) => c == '\n'
    case _ => false
  }

  function Ahead(source: string, i: nat): Option<char> {
    if i + 1 < |source| then Some(source[i + 1]) else None
  }

  /** The mode in which the reference lexer reads character i. */
  function ModeAt(source: string, i: nat): Mode
    requires i <= |source|
  {
    if i == 0 then Code else NextMode(ModeAt(source, i - 1), source[i - 1], Ahead(source, i - 1))
  }

  function MaskedChar(source: string, i: nat): char
    requires i < |source|
  {
    if Survives(ModeAt(source, i), source[i], Ahead(source, i)) then source[i] else ' '
  }

  /** out is the masked form of the first n characters. */
  ghost predicate Masks(source: string, n: nat, out: string)
    requires n <= |source|
  {
    |out| == n && forall i :: 0 <= i < n ==> out[i] == MaskedChar(source, i)
  }

  lemma MasksSnoc(source: string, n: nat, out: string)
    requires n < |source| && Masks(source, n, out)
    ensures Masks(source, n + 1, out + [MaskedChar(source, n)])
  {
  }

  /** Appending one blank, in a mode that blanks this character. */
  lemma Blank(source: string, n: nat, out: string)
    requires n < |source| && Masks(source, n, out) && !Survives(ModeAt(source, n), source[n], Ahead(source, n))
    ensures Masks(source, n + 1, out + " ")
  {
    MasksSnoc(source, n, out);
  }

  // ---- the scanner, as written ----

  predicate StartsWith(source: string, i: nat, a: char, b: char) {
    i + 1 < |source| && source[i] == a && source[i + 1] == b
  }

  /** A line comment up to, not including, its line break. */
  method SkipLineComment(source: string, start: nat, before: string) returns (i: nat, out: string)
    requires StartsWith(source, start, '/', '/') && Masks(source, start, before) && ModeAt(source, start) == Code
    ensures start < i <= |source| && Masks(source, i, out)
    ensures i < |source| ==> ModeAt(source, i) == Code
    ensures i == |source| ==> ModeAt(source, i) == Line
  {
    Blank(source, start, before);
    assert ModeAt(source, start + 1) == LineOpen;
    Blank(source, start + 1, before + " ");
    out, i := before + " " + " ", start + 2;
    while i < |source| && source[i] != '\n'
      invariant start < i <= |source| && Masks(source, i, out)
      invariant ModeAt(source, i) == if i < |source| && source[i] == '\n' then Code else Line
    {
      Blank(source, i, out);
      out := out + " ";
      i := i + 1;
    }
  }

  /** A block comment with its closing delimiter, if there is one. */
  method SkipBlockComment(source: string, start: nat, before: string) returns (i: nat, out: string)
    requires StartsWith(source, start, '/', '*') && Masks(source, start, before) && ModeAt(source, start) == Code
    ensures start < i <= |source| && Masks(source, i, out)
    ensures ModeAt(source, i) == Code || (i == |source| && ModeAt(source, i) == Block)
  {
    Blank(source, start, before);
    assert ModeAt(source, start + 1) == BlockOpen;
    Blank(source, start + 1, before + " ");
    out, i := before + " " + " ", start + 2;
    while i < |source| && !StartsWith(source, i, '*', '/')
      invariant start < i <= |source| && Masks(source, i, out)
      invariant ModeAt(source, i) == Block
    {
      MasksSnoc(source, i, out);
      if source[i] == '\n' {
        out := out + "\n";
      } else {
        out := out + " ";
      }
      i := i + 1;
    }
    if i < |source| {
      Blank(source, i, out);
      assert ModeAt(source, i + 1) == BlockClose;
      Blank(source, i + 1, out + " ");
      out, i := out + " " + " ", i + 2;
    }
  }

  /** What the scanner has produced when it stops at i: one blank too many exactly when the
      source ends right after an escaping backslash. */
  ghost predicate Stopped(source: string, i: nat, out: string) {
    if i <= |source| then Masks(source, i, out)
    else i == |source| + 1 && |out| == i && out[|source|] == ' ' && Masks(source, |source|, out[..|source|])
         && ModeAt(source, |source|).Escaped?
  }

  /** A string literal up to its closing quote, its line break, or the end of the source. */
  method SkipString(source: string, start: nat, before: string) returns (i: nat, out: string)
    requires start < |source| && IsQuote(source[start]) && Masks(source, start, before) && ModeAt(source, start) == Code
    ensures start < i && Stopped(source, i, out)
    ensures i <= |source| ==> ModeAt(source, i) == Code || (i == |source| && ModeAt(source, i) == Quoted(source[start]))
  {
    var quote := source[start];
    Blank(source, start, before);
    out, i := before + " ", start + 1;
    while i < |source|
      invariant start < i && Stopped(source, i, out)
      invariant i <= |source| ==> ModeAt(source, i) == Quoted(quote)
      decreases |source| + 1 - i
    {
      if source[i] == '\n' {
        MasksSnoc(source, i, out);
        out := out + "\n";
        i := i + 1;
        if quote != '`' {
          break;
        }
        continue;
      }
      if source[i] == '\\' && quote != '`' {
        Blank(source, i, out);
        if i + 1 < |source| {
          Blank(source, i + 1, out + " ");
        } else {
          assert (out + "  ")[..|source|] == out + " ";
        }
        assert out + " " + " " == out + "  ";
        out := out + "  ";
        i := i + 2;
        continue;
      }
      Blank(source, i, out);
      out := out + " ";
      if source[i] == quote {
        i := i + 1;
        break;
      }
      i := i + 1;
    }
  }

  /** stripCommentsAndStrings: the nested scanning loops compute exactly the mask of the
      reference lexer, and add one trailing blank exactly when the source ends in a dangling
      backslash inside a string. */
  method StripCommentsAndStrings(source: string) returns (out: string)
    ensures |out| == |source| + if ModeAt(source, |source|).Escaped? then 1 else 0
    ensures forall i :: 0 <= i < |source| ==> out[i] == MaskedChar(source, i)
    ensures |out| > |source| ==> out[|source|] == ' '
  {
    out := "";
    var i := 0;
    while i < |source|
      invariant Stopped(source, i, out)
      invariant i < |source| ==> ModeAt(source, i) == Code
      invariant i == |source| ==> !ModeAt(source, i).Escaped?
      decreases |source| + 1 - i
    {
      if StartsWith(source, i, '/', '/') {
        i, out := SkipLineComment(source, i, out);
      } else if StartsWith(source, i, '/', '*') {
        i, out := SkipBlockComment(source, i, out);
      } else if IsQuote(source[i]) {
        i, out := SkipString(source, i, out);
      } else {
        MasksSnoc(source, i, out);
        out := out + [source[i]];
        i := i + 1;
      }
    }
  }

  /** Nothing in masked text opens a comment or a string: it is all code, and masking it
      again changes nothing. */
  lemma {:induction false} MaskedTextIsCode(source: string, out: string, i: nat)
    requires |source| <= |out| && i <= |out|
    requires forall k :: 0 <= k < |source| ==> out[k] == MaskedChar(source, k)
    requires forall k :: |source| <= k < |out| ==> out[k] == ' '
    ensures ModeAt(out, i) == Code
    ensures i < |out| ==> MaskedChar(out, i) == out[i]
  {
    if i > 0 {
      MaskedTextIsCode(source, out, i - 1);
    }
    if i < |out| {
      SurvivorsOpenNothing(source, out, i);
    }
  }

  lemma SurvivorsOpenNothing(source: string, out: string, i: nat)
    requires |source| <= |out| && i < |out|
    requires forall k :: 0 <= k < |source| ==> out[k] == MaskedChar(source, k)
    requires forall k :: |source| <= k < |out| ==> out[k] == ' '
    ensures NextMode(Code, out[i], Ahead(out, i)) == Code
  {
    if i + 1 < |source| {
      assert out[i + 1] == source[i + 1] || out[i + 1] == ' ';
    }
  }

  // ---- matching delimiters in masked text ----

  /** Opening minus closing delimiters in s[lo..hi]. */
  function Balance(s: string, lo: nat, hi: nat, open: char, close: char): int
    requires lo <= hi <= |s|
    decreases hi
  {
    if lo == hi then 0
    else Balance(s, lo, hi - 1, open, close) + Weight(s[hi - 1], open, close)
  }

  function Weight(c: char, open: char, close: char): int {
    if c == open then 1 else if c == close then -1 else 0
  }

  /** The delimiter opened at openIndex is balanced for the first time at r. */
  ghost predicate ClosesAt(s: string, openIndex: int, r: int, open: char, close: char) {
    && 0 <= openIndex < r < |s| && s[openIndex] == open && s[r] == close
    && Balance(s, openIndex, r + 1, open, close) == 0
    && forall k :: openIndex < k <= r ==> Balance(s, openIndex, k, open, close) > 0
  }

  lemma ClosesOnce(s: string, openIndex: int, r: int, r': int, open: char, close: char)
    requires ClosesAt(s, openIndex, r, open, close) && ClosesAt(s, openIndex, r', open, close)
    ensures r == r'
  {
    assert Balance(s, openIndex, r + 1, open, close) == 0 && Balance(s, openIndex, r' + 1, open, close) == 0;
  }

  /** The index at which the delimiter opened at openIndex is balanced; -1 exactly when there
      is none. */
  method FindMatchingDelimiter(s: string, openIndex: int, open: char, close: char) returns (r: int)
    ensures r == -1 || ClosesAt(s, openIndex, r, open, close)
    ensures r == -1 <==> forall k :: !ClosesAt(s, openIndex, k, open, close)
  {
    if openIndex < 0 || openIndex >= |s| || s[openIndex] != open {
      return -1;
    }
    var depth, i := 0, openIndex;
    while i < |s|
      invariant openIndex <= i <= |s|
      invariant depth == Balance(s, openIndex, i, open, close)
      invariant i > openIndex ==> depth > 0
      invariant forall k :: openIndex < k <= i ==> Balance(s, openIndex, k, open, close) > 0
    {
      if s[i] == open {
        depth := depth + 1;
      } else if s[i] == close {
        depth := depth - 1;
        if depth == 0 {
          assert ClosesAt(s, openIndex, i, open, close);
          return i;
        }
      }
      i := i + 1;
    }
    return -1;
  }

  /** The text the scanner produces. */
  function Masked(source: string): string {
    seq(|source| + if ModeAt(source, |source|).Escaped? then 1 else 0,
        i requires 0 <= i => if i < |source| then MaskedChar(source, i) else ' ')
  }

  /** The arguments of the call opened at callOpen are found exactly when its parenthesis
      closes in the masked text, and they are the text up to there, in both forms; the slice
      of the source is in bounds although the masked text can be one character longer. */
  method CallArguments(source: string, callOpen: int) returns (r: Option<(string, string)>)
    ensures r.Some? <==> exists close :: ClosesAt(Masked(source), callOpen, close, '(', ')')
    ensures forall close :: ClosesAt(Masked(source), callOpen, close, '(', ')') ==>
      && close < |source| && source[callOpen] == '(' && source[close] == ')'
      && r == Some((source[callOpen + 1..close], Masked(source)[callOpen + 1..close]))
  {
    var stripped := StripCommentsAndStrings(source);
    assert stripped == Masked(source);
    var callClose := FindMatchingDelimiter(stripped, callOpen, '(', ')');
    if callClose < 0 || callClose <= callOpen {
      return None;
    }
    assert callClose < |source| && callOpen < |source|;
    assert stripped[callOpen] == MaskedChar(source, callOpen) && stripped[callClose] == MaskedChar(source, callClose);
    r := Some((source[callOpen + 1..callClose], stripped[callOpen + 1..callClose]));
    forall close | ClosesAt(Masked(source), callOpen, close, '(', ')') ensures close == callClose {
      ClosesOnce(Masked(source), callOpen, close, callClose, '(', ')');
    }
  }
}
