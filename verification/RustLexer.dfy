/** The comment and literal stripper of `scripts/check_gateway_boundaries.py`: a character loop over
    mode flags, against a reference that cuts the source into whole comments and literals. */
module RustLexer {
  import opened Wrappers

  // --- Reference: where each comment or literal ends --------------------------------------

  /** The end of a line comment whose text starts at `i`: the next newline, not included. */
  function LineEnd(s: string, i: nat): (j: nat)
    requires i <= |s|
    ensures i <= j <= |s|
    decreases |s| - i
  {
    if i == |s| || s[i] == '\n' then i else LineEnd(s, i + 1)
  }

  predicate Pair(s: string, i: nat, a: char, b: char) {
    i + 1 < |s| && s[i] == a && s[i + 1] == b
  }

  /** The end of a block comment that is `depth` levels deep at `i`. */
  function BlockEnd(s: string, i: nat, depth: nat): (j: nat)
    requires i <= |s|
    ensures i <= j <= |s|
    decreases |s| - i
  {
    if depth == 0 || i == |s| then i
    else if Pair(s, i, '/', '*') then BlockEnd(s, i + 2, depth + 1)
    else if Pair(s, i, '*', '/') then BlockEnd(s, i + 2, depth - 1)
    else BlockEnd(s, i + 1, depth)
  }

  /** How many hashes stand at `i`. */
  function Hashes(s: string, i: nat): (n: nat)
    requires i <= |s|
    ensures i + n <= |s|
    decreases |s| - i
  {
    if i < |s| && s[i] == '#' then 1 + Hashes(s, i + 1) else 0
  }

  predicate RawCloses(s: string, i: nat, hashes: nat) {
    i + 1 + hashes <= |s| && s[i] == '"' && forall k | i < k < i + 1 + hashes :: s[k] == '#'
  }

  function RawEnd(s: string, i: nat, hashes: nat): (j: nat)
    requires i <= |s|
    ensures i <= j <= |s|
    decreases |s| - i
  {
    if i == |s| then i
    else if RawCloses(s, i, hashes) then i + 1 + hashes
    else RawEnd(s, i + 1, hashes)
  }

  /** The end of a string or character literal closed by `q`; a backslash takes the next character along. */
  function QuoteEnd(s: string, i: nat, q: char): (j: nat)
    requires i <= |s|
    ensures i <= j <= |s|
    decreases |s| - i
  {
    if i == |s| then i
    else if s[i] == '\\' then (if i + 1 == |s| then i + 1 else QuoteEnd(s, i + 2, q))
    else if s[i] == q then i + 1
    else QuoteEnd(s, i + 1, q)
  }

  // --- Reference: what opens -----------------------------------------------------------

  predicate OpensRaw(s: string, i: nat) {
    i < |s| && s[i] == 'r' && i + 1 + Hashes(s, i + 1) < |s| && s[i + 1 + Hashes(s, i + 1)] == '"'
  }

  /** A quote with another one among the next five characters. */
  predicate OpensChar(s: string, i: nat) {
    i < |s| && s[i] == '\'' && exists k | i < k < |s| && k < i + 6 :: s[k] == '\''
  }

  predicate Opens(s: string, i: nat) {
    Pair(s, i, '/', '/') || Pair(s, i, '/', '*') || OpensRaw(s, i) || (i < |s| && s[i] == '"') || OpensChar(s, i)
  }

  // --- Reference: the stripped text -------------------------------------------------------

  function Blank(c: char): char {
    if c == '\n' || c == '\t' then c else ' '
  }

  /** The end of the comment or literal that opens at `i`. */
  function TokenEnd(s: string, i: nat): (j: nat)
    requires Opens(s, i)
    ensures i < j <= |s|
  {
    if Pair(s, i, '/', '/') then LineEnd(s, i + 2)
    else if Pair(s, i, '/', '*') then BlockEnd(s, i + 2, 1)
    else if OpensRaw(s, i) then RawEnd(s, i + 2 + Hashes(s, i + 1), Hashes(s, i + 1))
    else if s[i] == '"' then QuoteEnd(s, i + 1, '"')
    else QuoteEnd(s, i + 1, '\'')
  }

  predicate IsCharToken(s: string, i: nat) {
    OpensChar(s, i) && !Pair(s, i, '/', '/') && !Pair(s, i, '/', '*') && !OpensRaw(s, i) && s[i] != '"'
  }

  /** Position `k` of a character literal whose body goes on at `i`: an escaped character becomes a space,
      whatever it is. */
  function CharAt(s: string, i: nat, k: nat): char
    requires i <= k < |s| && k < QuoteEnd(s, i, '\'')
    decreases |s| - i
  {
    if s[i] == '\\' then (if k < i + 2 then ' ' else CharAt(s, i + 2, k))
    else if s[i] == '\'' then ' '
    else if k == i then Blank(s[i])
    else CharAt(s, i + 1, k)
  }

  /** Position `k` of the token that opens at `i`. */
  function TokenAt(s: string, i: nat, k: nat): char
    requires Opens(s, i) && i <= k < TokenEnd(s, i)
  {
    if !IsCharToken(s, i) then Blank(s[k]) else if k == i then ' ' else CharAt(s, i + 1, k)
  }

  /** Position `k` of the stripped text, when `i` is a code position. */
  function StripAt(s: string, i: nat, k: nat): char
    requires i <= k < |s|
    decreases |s| - i
  {
    if !Opens(s, i) then (if k == i then s[i] else StripAt(s, i + 1, k))
    else if k < TokenEnd(s, i) then TokenAt(s, i, k)
    else StripAt(s, TokenEnd(s, i), k)
  }

  /** The text with every comment and literal blanked. */
  function Strip(s: string): string {
    seq(|s|, k requires 0 <= k < |s| => StripAt(s, 0, k))
  }

  // --- The loop ----------------------------------------------------------------------------

  /** The loop's mode: its flags are set one at a time, an escape flag only within its own literal. */
  datatype Mode = Code | Line | Block(depth: nat) | RawString(hashes: nat) | String(escape: bool) | Char(escape: bool)

  /** Position `k` when blanking goes on up to `j` and then code continues. */
  function AfterAt(s: string, j: nat, k: nat): char
    requires j <= |s| && k < |s|
  {
    if k < j then Blank(s[k]) else StripAt(s, j, k)
  }

  function CharRestAt(s: string, i: nat, k: nat): char
    requires i <= k < |s|
  {
    if k < QuoteEnd(s, i, '\'') then CharAt(s, i, k) else StripAt(s, QuoteEnd(s, i, '\''), k)
  }

  /** Position `k` of the text when the loop stands at `i` in mode `m`. */
  function RestAt(s: string, i: nat, m: Mode, k: nat): char
    requires i <= k < |s|
  {
    match m
    case Code => StripAt(s, i, k)
    case Line => AfterAt(s, LineEnd(s, i), k)
    case Block(depth) => AfterAt(s, BlockEnd(s, i, depth), k)
    case RawString(hashes) => AfterAt(s, RawEnd(s, i, hashes), k)
    case String(escape) =>
      if !escape then AfterAt(s, QuoteEnd(s, i, '"'), k)
      else if k == i then Blank(s[k])
      else AfterAt(s, QuoteEnd(s, i + 1, '"'), k)
    case Char(escape) =>
      if !escape then CharRestAt(s, i, k) else if k == i then ' ' else CharRestAt(s, i + 1, k)
  }

  /** One iteration emits the text up to `i'` and leaves the rest as it was. */
  ghost predicate Advances(s: string, i: nat, m: Mode, text: string, i': nat, m': Mode) {
    && i < i' <= |s| && m' != Block(0) && |text| == i' - i
    && (forall k | i <= k < i' :: text[k - i] == RestAt(s, i, m, k))
    && (forall k | i' <= k < |s| :: RestAt(s, i, m, k) == RestAt(s, i', m', k))
  }

  function Spaces(n: nat): string {
    seq(n, _ => ' ')
  }

  method LineStep(s: string, i: nat) returns (text: string, i': nat, m': Mode)
    requires i < |s|
    ensures Advances(s, i, Line, text, i', m')
  {
    if s[i] == '\n' {
      return [s[i]], i + 1, Code;
    }
    return [if s[i] != '\t' then ' ' else s[i]], i + 1, Line;
  }

  method BlockStep(s: string, i: nat, depth: nat) returns (text: string, i': nat, m': Mode)
    requires i < |s| && depth > 0
    ensures Advances(s, i, Block(depth), text, i', m')
  {
    if Pair(s, i, '/', '*') {
      return "  ", i + 2, Block(depth + 1);
    }
    if Pair(s, i, '*', '/') {
      assert BlockEnd(s, i, depth) == BlockEnd(s, i + 2, depth - 1);
      return "  ", i + 2, if depth == 1 then Code else Block(depth - 1);
    }
    return [if s[i] == '\n' then s[i] else if s[i] != '\t' then ' ' else s[i]], i + 1, Block(depth);
  }

  method RawStep(s: string, i: nat, hashes: nat) returns (text: string, i': nat, m': Mode)
    requires i < |s|
    ensures Advances(s, i, RawString(hashes), text, i', m')
  {
    if RawCloses(s, i, hashes) {
      return Spaces(1 + hashes), i + 1 + hashes, Code;
    }
    return [if s[i] == '\n' then s[i] else if s[i] != '\t' then ' ' else s[i]], i + 1, RawString(hashes);
  }

  method StringStep(s: string, i: nat, escape: bool) returns (text: string, i': nat, m': Mode)
    requires i < |s|
    ensures Advances(s, i, String(escape), text, i', m')
  {
    var c := s[i];
    if escape {
      return [if c != '\n' && c != '\t' then ' ' else c], i + 1, String(false);
    }
    if c == '\\' {
      return " ", i + 1, String(true);
    }
    if c == '"' {
      return " ", i + 1, Code;
    }
    return [if c == '\n' || c == '\t' then c else ' '], i + 1, String(false);
  }

  method CharStep(s: string, i: nat, escape: bool) returns (text: string, i': nat, m': Mode)
    requires i < |s|
    ensures Advances(s, i, Char(escape), text, i', m')
  {
    var c := s[i];
    if escape {
      return " ", i + 1, Char(false);
    }
    if c == '\\' {
      return " ", i + 1, Char(true);
    }
    if c == '\'' {
      return " ", i + 1, Code;
    }
    return [if c == '\n' || c == '\t' then c else ' '], i + 1, Char(false);
  }

  /** One iteration in code. */
  method CodeStep(s: string, i: nat) returns (text: string, i': nat, m': Mode)
    requires i < |s|
    ensures Advances(s, i, Code, text, i', m')
  {
    if Pair(s, i, '/', '/') {
      return "  ", i + 2, Line;
    }
    if Pair(s, i, '/', '*') {
      return "  ", i + 2, Block(1);
    }
    text, i', m' := LiteralStep(s, i);
  }

  /** One iteration in code where no comment starts. The raw-string look-ahead is a loop of its own. */
  method LiteralStep(s: string, i: nat) returns (text: string, i': nat, m': Mode)
    requires i < |s| && !Pair(s, i, '/', '/') && !Pair(s, i, '/', '*')
    ensures Advances(s, i, Code, text, i', m')
  {
    var hashes := RawAhead(s, i);
    if hashes.Some? {
      HashesAre(s, i + 1);
      return Spaces(hashes.value + 2), i + 2 + hashes.value, RawString(hashes.value);
    }
    if s[i] == '"' {
      return " ", i + 1, String(false);
    }
    if OpensChar(s, i) {
      return " ", i + 1, Char(false);
    }
    return [s[i]], i + 1, Code;
  }

  method RawAhead(s: string, i: nat) returns (hashes: Option<nat>)
    requires i < |s|
    ensures hashes == if OpensRaw(s, i) then Some(Hashes(s, i + 1)) else None
  {
    if s[i] == 'r' {
      var n := CountHashes(s, i + 1);
      if i + 1 + n < |s| && s[i + 1 + n] == '"' {
        return Some(n);
      }
    }
    return None;
  }

  method CountHashes(s: string, i: nat) returns (n: nat)
    requires i <= |s|
    ensures n == Hashes(s, i)
  {
    var j := i;
    n := 0;
    while j < |s| && s[j] == '#'
      invariant i <= j <= |s| && n == j - i && n + Hashes(s, j) == Hashes(s, i)
    {
      n, j := n + 1, j + 1;
    }
  }

  lemma {:induction false} HashesAre(s: string, i: nat)
    requires i <= |s|
    ensures forall k | i <= k < i + Hashes(s, i) :: s[k] == '#'
    decreases |s| - i
  {
    if i < |s| && s[i] == '#' {
      HashesAre(s, i + 1);
    }
  }

  /** One iteration of the loop. */
  method Step(s: string, i: nat, m: Mode) returns (text: string, i': nat, m': Mode)
    requires i < |s| && m != Block(0)
    ensures Advances(s, i, m, text, i', m')
  {
    match m
    case Line => text, i', m' := LineStep(s, i);
    case Block(depth) => text, i', m' := BlockStep(s, i, depth);
    case RawString(hashes) => text, i', m' := RawStep(s, i, hashes);
    case String(escape) => text, i', m' := StringStep(s, i, escape);
    case Char(escape) => text, i', m' := CharStep(s, i, escape);
    case Code => text, i', m' := CodeStep(s, i);
  }

  /** What is out is right, and the rest is what the mode still has to emit. */
  ghost predicate Emitted(s: string, out: string, i: nat, m: Mode) {
    && |out| == i <= |s| && m != Block(0)
    && (forall k | 0 <= k < i :: out[k] == StripAt(s, 0, k))
    && (forall k | i <= k < |s| :: RestAt(s, i, m, k) == StripAt(s, 0, k))
  }

  lemma EmittedMore(s: string, out: string, i: nat, m: Mode, text: string, i': nat, m': Mode)
    requires Emitted(s, out, i, m) && Advances(s, i, m, text, i', m')
    ensures Emitted(s, out + text, i', m')
  {
    forall k | i <= k < i' ensures (out + text)[k] == StripAt(s, 0, k) {
      assert text[k - i] == RestAt(s, i, m, k);
    }
    forall k | i' <= k < |s| ensures RestAt(s, i', m', k) == StripAt(s, 0, k) {
      assert RestAt(s, i, m, k) == RestAt(s, i', m', k);
    }
  }

  /** `_strip_comments_and_strings`: the flag loop computes the reference. */
  method StripCommentsAndStrings(s: string) returns (out: string)
    ensures out == Strip(s)
  {
    out := "";
    var i, m := 0, Code;
    while i < |s|
      invariant Emitted(s, out, i, m)
    {
      var text, j, next := Step(s, i, m);
      EmittedMore(s, out, i, m, text, j, next);
      out, i, m := out + text, j, next;
    }
  }

  // --- What the result is --------------------------------------------------------------------

  /** The character `c` shows position `k`: blank, or the code character itself, which opens nothing. */
  predicate Shows(s: string, k: nat, c: char)
    requires k < |s|
  {
    c == ' ' || (c == s[k] && (c == '\n' || c == '\t' || !Opens(s, k)))
  }

  lemma {:induction false} CharShows(s: string, i: nat, k: nat)
    requires i <= k < |s| && k < QuoteEnd(s, i, '\'')
    ensures Shows(s, k, CharAt(s, i, k))
    decreases |s| - i
  {
    if s[i] == '\\' {
      if k >= i + 2 {
        CharShows(s, i + 2, k);
      }
    } else if s[i] != '\'' && k > i {
      CharShows(s, i + 1, k);
    }
  }

  /** Every position is the original character or a space; a kept character opens nothing. */
  lemma {:induction false} StripShows(s: string, i: nat, k: nat)
    requires i <= k < |s|
    ensures Shows(s, k, StripAt(s, i, k))
    decreases |s| - i
  {
    if Opens(s, i) {
      if k >= TokenEnd(s, i) {
        StripShows(s, TokenEnd(s, i), k);
      } else if IsCharToken(s, i) && k > i {
        CharShows(s, i + 1, k);
      }
    } else if k > i {
      StripShows(s, i + 1, k);
    }
  }

  /** Same length, pointwise original or space, and nothing left that opens a comment or a literal. */
  lemma StripBlanks(s: string)
    ensures |Strip(s)| == |s|
    ensures forall k | 0 <= k < |s| :: Strip(s)[k] == s[k] || Strip(s)[k] == ' '
    ensures forall k | 0 <= k < |s| :: !Opens(Strip(s), k)
  {
    var o := Strip(s);
    forall k | 0 <= k < |s|
      ensures Shows(s, k, o[k])
    {
      StripShows(s, 0, k);
    }
    forall k | 0 <= k < |s|
      ensures !Opens(o, k)
    {
      NothingOpens(s, o, k);
    }
  }

  lemma NothingOpens(s: string, o: string, k: nat)
    requires |o| == |s| && k < |s| && forall j | 0 <= j < |s| :: Shows(s, j, o[j])
    ensures !Opens(o, k)
  {
    forall j | 0 <= j < |s|
      ensures o[j] != '"' && (o[j] == s[j] || o[j] == ' ')
    {
      assert Shows(s, j, o[j]);
    }
    assert Shows(s, k, o[k]);
    if o[k] == '\'' {
      forall j | k < j < |s| && j < k + 6
        ensures o[j] != '\''
      {
        assert s[j] == '\'' ==> OpensChar(s, k);
      }
    }
  }

  lemma {:induction false} StripKeeps(s: string, i: nat, k: nat)
    requires i <= k < |s| && forall j | i <= j < |s| :: !Opens(s, j)
    ensures StripAt(s, i, k) == s[k]
    decreases |s| - i
  {
    if i < k {
      StripKeeps(s, i + 1, k);
    }
  }

  /** A second pass changes nothing. */
  lemma StripIdempotent(s: string)
    ensures Strip(Strip(s)) == Strip(s)
  {
    StripBlanks(s);
    var o := Strip(s);
    forall k | 0 <= k < |o| ensures Strip(o)[k] == o[k] {
      StripKeeps(o, 0, k);
    }
  }

  // --- Newlines --------------------------------------------------------------------------------

  /** Position `k` of a character literal's body, which goes on at `i`, stands right after a backslash. */
  predicate EscapedInBody(s: string, i: nat, k: nat)
    requires i <= |s|
    decreases |s| - i
  {
    if i == |s| || k < i then false
    else if s[i] == '\\' then (k == i + 1 && k < |s|) || (i + 2 <= |s| && EscapedInBody(s, i + 2, k))
    else if s[i] == '\'' then false
    else EscapedInBody(s, i + 1, k)
  }

  /** Position `k`, at or after the code position `i`, is an escaped character of a character literal. */
  predicate Escaped(s: string, i: nat, k: nat)
    requires i <= k < |s|
    decreases |s| - i
  {
    if !Opens(s, i) then k > i && Escaped(s, i + 1, k)
    else if k >= TokenEnd(s, i) then Escaped(s, TokenEnd(s, i), k)
    else IsCharToken(s, i) && EscapedInBody(s, i + 1, k)
  }

  lemma {:induction false} CharNewline(s: string, i: nat, k: nat)
    requires i <= k < |s| && k < QuoteEnd(s, i, '\'') && s[k] == '\n'
    ensures CharAt(s, i, k) == '\n' <==> !EscapedInBody(s, i, k)
    decreases |s| - i
  {
    if s[i] == '\\' {
      if k >= i + 2 {
        CharNewline(s, i + 2, k);
      }
    } else if s[i] != '\'' && k > i {
      CharNewline(s, i + 1, k);
    }
  }

  lemma {:induction false} NewlineAt(s: string, i: nat, k: nat)
    requires i <= k < |s| && s[k] == '\n'
    ensures StripAt(s, i, k) == '\n' <==> !Escaped(s, i, k)
    decreases |s| - i
  {
    if !Opens(s, i) {
      if k > i {
        NewlineAt(s, i + 1, k);
      }
    } else if k >= TokenEnd(s, i) {
      NewlineAt(s, TokenEnd(s, i), k);
    } else if IsCharToken(s, i) {
      CharNewline(s, i + 1, k);
    }
  }

  /** Line numbers are stable exactly when no character literal escapes a newline. */
  lemma NewlinesKept(s: string)
    ensures (forall k | 0 <= k < |s| :: s[k] == '\n' <==> Strip(s)[k] == '\n') <==>
            (forall k | 0 <= k < |s| && Escaped(s, 0, k) :: s[k] != '\n')
  {
    forall k | 0 <= k < |s|
      ensures (s[k] == '\n' <==> Strip(s)[k] == '\n') <==> (Escaped(s, 0, k) ==> s[k] != '\n')
    {
      NewlineKept(s, k);
    }
  }

  lemma NewlineKept(s: string, k: nat)
    requires k < |s|
    ensures (s[k] == '\n' <==> Strip(s)[k] == '\n') <==> (Escaped(s, 0, k) ==> s[k] != '\n')
  {
    StripShows(s, 0, k);
    if s[k] == '\n' {
      NewlineAt(s, 0, k);
    }
  }

  /** The exception in the smallest form: a quote, a backslash, a newline and a quote lose the newline. */
  lemma NewlineLost()
    ensures "'\\\n'"[2] == '\n' && Strip("'\\\n'")[2] == ' '
  {
    var s := "'\\\n'";
    assert s[3] == '\'' && OpensChar(s, 0);
    assert TokenEnd(s, 0) == 4;
  }
}
