/** The sanitiser of PostgreSQL's `Makefile.global` (`sanitise_pg_makefiles` and
    `sanitise_flags_assignment` of `crates/brassclaw_embedded_postgres/build.rs`). */
module MakefileGlobal {
  import opened Wrappers

  // --- Strings -------------------------------------------------------------------------

  /** Rust's `char::is_whitespace`. */
  predicate IsSpace(c: char) {
    || '\t' <= c <= '\r' || c == ' ' || c == '\U{85}' || c == '\U{a0}' || c == '\U{1680}'
    || '\U{2000}' <= c <= '\U{200a}' || c == '\U{2028}' || c == '\U{2029}' || c == '\U{202f}' || c == '\U{205f}' || c == '\U{3000}'
  }

  predicate StartsWith(s: string, p: string) {
    |p| <= |s| && s[..|p|] == p
  }

  predicate Contains(s: string, p: string) {
    exists i | 0 <= i <= |s| :: StartsWith(s[i..], p)
  }

  function TrimStart(s: string): string {
    if s != "" && IsSpace(s[0]) then TrimStart(s[1..]) else s
  }

  function TrimEnd(s: string): string {
    if s != "" && IsSpace(s[|s| - 1]) then TrimEnd(s[..|s| - 1]) else s
  }

  function Trim(s: string): string {
    TrimEnd(TrimStart(s))
  }

  /** The length of the leading run without white space. */
  function WordLength(s: string): (n: nat)
    ensures n <= |s| && (forall k | 0 <= k < n :: !IsSpace(s[k])) && (n < |s| ==> IsSpace(s[n]))
  {
    if s == "" || IsSpace(s[0]) then 0 else 1 + WordLength(s[1..])
  }

  /** `split_whitespace`. */
  function Words(s: string): seq<string>
    decreases |s|
  {
    if s == "" then []
    else if IsSpace(s[0]) then Words(s[1..])
    else [s[..WordLength(s)]] + Words(s[WordLength(s)..])
  }

  predicate IsWord(w: string) {
    w != "" && forall k | 0 <= k < |w| :: !IsSpace(w[k])
  }

  /** `join(" ")`. */
  function Spaced(ws: seq<string>): string {
    if ws == [] then "" else if |ws| == 1 then ws[0] else ws[0] + " " + Spaced(ws[1..])
  }

  predicate AllWords(ws: seq<string>) {
    forall i | 0 <= i < |ws| :: IsWord(ws[i])
  }

  lemma {:induction false} WordsAreWords(s: string)
    ensures AllWords(Words(s))
    decreases |s|
  {
    if s != "" {
      if IsSpace(s[0]) { WordsAreWords(s[1..]); } else { WordsAreWords(s[WordLength(s)..]); }
    }
  }

  lemma {:induction false} WordPrefix(w: string, s: string)
    requires IsWord(w) && (s == "" || IsSpace(s[0]))
    ensures WordLength(w + s) == |w|
  {
    var t := w + s;
    assert forall k | 0 <= k < |w| :: t[k] == w[k];
    assert s != "" ==> t[|w|] == s[0];
  }

  /** Joining words with single spaces and splitting again gives them back. */
  lemma {:induction false} WordsOfSpaced(ws: seq<string>)
    requires AllWords(ws)
    ensures Words(Spaced(ws)) == ws
  {
    if ws != [] {
      var w := ws[0];
      assert IsWord(w);
      if |ws| == 1 {
        WordPrefix(w, "");
        assert w + "" == w && w[|w|..] == "";
        assert ws == [w];
      } else {
        var more := Spaced(ws[1..]);
        WordsOfSpaced(ws[1..]);
        WordPrefix(w, " " + more);
        var s := w + " " + more;
        assert s == w + (" " + more);
        assert s[..|w|] == w && s[|w|..] == " " + more && (" " + more)[1..] == more;
        assert Words(s) == [w] + Words(" " + more);
        assert Words(" " + more) == Words(more);
      }
    }
  }

  predicate Trimmed(s: string) {
    s == "" || (!IsSpace(s[0]) && !IsSpace(s[|s| - 1]))
  }

  lemma {:induction false} SpacedTrimmed(ws: seq<string>)
    requires AllWords(ws)
    ensures Trimmed(Spaced(ws)) && (ws != [] ==> Spaced(ws) != "")
  {
    if ws != [] {
      assert IsWord(ws[0]);
      SpacedTrimmed(ws[1..]);
    }
  }

  lemma TrimOfTrimmed(s: string)
    requires Trimmed(s)
    ensures Trim(" " + s) == s && Trim(s) == s
  {
    var t := " " + s;
    assert t[0] == ' ' && t[1..] == s;
    assert TrimStart(t) == TrimStart(s) == s;
  }

  // --- Flag assignments ---------------------------------------------------------------------

  datatype Variable = CPPFLAGS | CFLAGS | LDFLAGS

  function NameOf(v: Variable): string {
    match v case CPPFLAGS => "CPPFLAGS" case CFLAGS => "CFLAGS" case LDFLAGS => "LDFLAGS"
  }

  /** The tokens dropped from each assignment, beside `-isysroot` and its argument. */
  predicate Drops(v: Variable, token: string) {
    match v
    case CPPFLAGS =>
      StartsWith(token, "-isysroot=") || (StartsWith(token, "-I") && Contains(token[2..], "/runner/"))
    case CFLAGS =>
      token == "-Werror=unguarded-availability-new" || token == "-Wno-unguarded-availability-new"
    case LDFLAGS =>
      StartsWith(token, "-isysroot=") || (StartsWith(token, "-L") && Contains(token[2..], "/runner/"))
  }

  const SYSROOT := "-isysroot"

  /** Kept tokens: `-isysroot` goes with whatever token follows it. */
  function Kept(v: Variable, tokens: seq<string>): seq<string>
    decreases |tokens|
  {
    if tokens == [] then []
    else if tokens[0] == SYSROOT then (if |tokens| == 1 then [] else Kept(v, tokens[2..]))
    else if Drops(v, tokens[0]) then Kept(v, tokens[1..])
    else [tokens[0]] + Kept(v, tokens[1..])
  }

  predicate Clean(v: Variable, tokens: seq<string>) {
    forall i | 0 <= i < |tokens| :: tokens[i] != SYSROOT && !Drops(v, tokens[i])
  }

  predicate Subsequence(a: seq<string>, b: seq<string>)
    decreases |b|
  {
    if a == [] then true
    else if b == [] then false
    else (a[0] == b[0] && Subsequence(a[1..], b[1..])) || Subsequence(a, b[1..])
  }

  lemma {:induction false} SubsequenceSkip(a: seq<string>, b: seq<string>)
    requires b != [] && Subsequence(a, b[1..])
    ensures Subsequence(a, b)
  {
  }

  /** The kept tokens are a subsequence of the originals, and none of them is dropped by a second run. */
  lemma {:induction false} KeptClean(v: Variable, tokens: seq<string>)
    ensures Clean(v, Kept(v, tokens)) && Subsequence(Kept(v, tokens), tokens)
    ensures AllWords(tokens) ==> AllWords(Kept(v, tokens))
    decreases |tokens|
  {
    if tokens != [] {
      if tokens[0] == SYSROOT {
        if |tokens| > 1 {
          KeptClean(v, tokens[2..]);
          assert tokens[1..][1..] == tokens[2..];
          SubsequenceSkip(Kept(v, tokens), tokens[1..]);
          SubsequenceSkip(Kept(v, tokens), tokens);
        }
      } else if Drops(v, tokens[0]) {
        KeptClean(v, tokens[1..]);
      } else {
        KeptClean(v, tokens[1..]);
        assert Kept(v, tokens)[1..] == Kept(v, tokens[1..]);
      }
    }
  }

  lemma {:induction false} KeptOfClean(v: Variable, tokens: seq<string>)
    requires Clean(v, tokens)
    ensures Kept(v, tokens) == tokens
  {
    if tokens != [] {
      KeptOfClean(v, tokens[1..]);
    }
  }

  /** The kept tokens when the next one may have to be skipped. */
  function KeptAfter(v: Variable, tokens: seq<string>, skip: bool): seq<string> {
    if skip then (if tokens == [] then [] else Kept(v, tokens[1..])) else Kept(v, tokens)
  }

  lemma KeptStep(v: Variable, tokens: seq<string>, skip: bool)
    requires tokens != []
    ensures KeptAfter(v, tokens, skip) ==
      if skip then KeptAfter(v, tokens[1..], false)
      else if tokens[0] == SYSROOT then KeptAfter(v, tokens[1..], true)
      else (if Drops(v, tokens[0]) then [] else [tokens[0]]) + KeptAfter(v, tokens[1..], false)
  {
    if |tokens| > 1 {
      assert tokens[1..][1..] == tokens[2..];
    }
  }

  /** The token loop. */
  method KeepTokens(v: Variable, tokens: seq<string>) returns (kept: seq<string>)
    ensures kept == Kept(v, tokens)
  {
    kept := [];
    var skipNext := false;
    for i := 0 to |tokens|
      invariant kept + KeptAfter(v, tokens[i..], skipNext) == Kept(v, tokens)
    {
      KeptStep(v, tokens[i..], skipNext);
      assert tokens[i..][1..] == tokens[i + 1..];
      if skipNext {
        skipNext := false;
      } else if tokens[i] == SYSROOT {
        skipNext := true;
      } else if !Drops(v, tokens[i]) {
        kept := kept + [tokens[i]];
      }
    }
    assert KeptAfter(v, tokens[|tokens|..], skipNext) == [];
  }

  /** The position of the first `=`, or the length. */
  function Equals(line: string): (n: nat)
    ensures n <= |line| && (forall k | 0 <= k < n :: line[k] != '=') && (n < |line| ==> line[n] == '=')
  {
    if line == "" || line[0] == '=' then 0 else 1 + Equals(line[1..])
  }

  function ValueOf(line: string): string
    requires Equals(line) < |line|
  {
    Trim(line[Equals(line) + 1..])
  }

  /** `sanitise_flags_assignment`: the rebuilt line, if the value changes. */
  function FlagsLine(v: Variable, line: string): Option<string> {
    if Equals(line) == |line| then None
    else
      var kept := Spaced(Kept(v, Words(ValueOf(line))));
      if kept == ValueOf(line) then None
      else Some(TrimEnd(line[..Equals(line)]) + (if kept == "" then " =" else " = " + kept))
  }

  /** `NAME =` or `NAME=` at the start of the line. */
  predicate Assigns(line: string, name: string) {
    StartsWith(line, name + " =") || StartsWith(line, name + "=")
  }

  /** What one line outside a removed block becomes, if it changes. */
  function FixedLine(line: string): Option<string> {
    if Assigns(line, "CPPFLAGS") && FlagsLine(CPPFLAGS, line).Some? then FlagsLine(CPPFLAGS, line)
    else if Assigns(line, "CFLAGS") && FlagsLine(CFLAGS, line).Some? then FlagsLine(CFLAGS, line)
    else if Assigns(line, "LDFLAGS") && FlagsLine(LDFLAGS, line).Some? then FlagsLine(LDFLAGS, line)
    else if Assigns(line, "PG_SYSROOT") && line != "PG_SYSROOT =" then Some("PG_SYSROOT =")
    else None
  }

  /** The rebuilt line consists of the name and words, so a second run rebuilds it to itself. */
  lemma FlagsLineStable(v: Variable, line: string)
    requires FlagsLine(v, line).Some? && Assigns(line, NameOf(v))
    ensures FlagsLine(v, FlagsLine(v, line).value).None?
  {
    var tokens := Words(ValueOf(line));
    var kept := Kept(v, tokens);
    WordsAreWords(ValueOf(line));
    KeptClean(v, tokens);
    SpacedTrimmed(kept);
    WordsOfSpaced(kept);
    KeptOfClean(v, kept);
    TrimOfTrimmed(Spaced(kept));
    var name := TrimEnd(line[..Equals(line)]);
    var line' := FlagsLine(v, line).value;
    NoEquals(line[..Equals(line)]);
    assert '=' !in name;
    EqualsAfter(name, if kept == [] then "" else " " + Spaced(kept), line');
  }

  lemma {:induction false} NoEquals(s: string)
    requires '=' !in s
    ensures '=' !in TrimEnd(s)
  {
    if s != "" && IsSpace(s[|s| - 1]) {
      NoEquals(s[..|s| - 1]);
    }
  }

  lemma EqualsAfter(name: string, rest: string, line: string)
    requires '=' !in name && line == name + " =" + rest
    ensures Equals(line) == |name| + 1 && line[Equals(line) + 1..] == rest
  {
    assert line[|name| + 1] == '=';
    assert forall k | 0 <= k < |name| :: line[k] == name[k];
  }

  // --- Lines are stable ------------------------------------------------------------------------

  predicate Plain(name: string) {
    name != "" && '=' !in name && !IsSpace(name[|name| - 1])
  }

  lemma AssignedName(line: string, name: string)
    requires Plain(name) && Assigns(line, name)
    ensures Equals(line) < |line| && TrimEnd(line[..Equals(line)]) == name
  {
    if StartsWith(line, name + "=") {
      EqualsAt(line, name);
    } else {
      SpacedName(line, name);
      EqualsAt(line, name + " ");
      TrimSpace(name);
    }
  }

  lemma TrimSpace(name: string)
    requires Plain(name)
    ensures TrimEnd(name + " ") == name
  {
    assert (name + " ")[..|name|] == name;
  }

  lemma SpacedName(line: string, name: string)
    requires StartsWith(line, name + " =") && '=' !in name
    ensures StartsWith(line, name + " " + "=") && '=' !in name + " "
  {
    assert name + " =" == name + " " + "=";
  }

  lemma EqualsAt(line: string, bare: string)
    requires '=' !in bare && StartsWith(line, bare + "=")
    ensures Equals(line) == |bare| < |line| && line[..Equals(line)] == bare
  {
    var p := bare + "=";
    assert line[..|p|] == p;
    assert forall k | 0 <= k < |bare| :: line[k] == p[k] == bare[k];
    assert line[|bare|] == p[|bare|] == '=';
  }

  lemma NamesPlain(v: Variable)
    ensures Plain(NameOf(v))
  {
  }

  /** Assignments to different names are told apart by their first two characters. */
  lemma Assigned(line: string, name: string)
    requires Assigns(line, name) && |name| >= 2
    ensures |line| >= 2 && line[0] == name[0] && line[1] == name[1]
  {
    var p := if StartsWith(line, name + " =") then name + " =" else name + "=";
    assert line[..|p|] == p;
    assert line[0] == p[0] && line[1] == p[1];
  }

  lemma AssignedOnce(line: string, name: string, other: string)
    requires Assigns(line, name) && |name| >= 2 && |other| >= 2 && (name[0] != other[0] || name[1] != other[1])
    ensures !Assigns(line, other)
  {
    Assigned(line, name);
    if Assigns(line, other) {
      Assigned(line, other);
    }
  }

  lemma OneVariable(v: Variable, line: string)
    requires Assigns(line, NameOf(v))
    ensures (Assigns(line, "CPPFLAGS") <==> v.CPPFLAGS?) && (Assigns(line, "CFLAGS") <==> v.CFLAGS?)
    ensures (Assigns(line, "LDFLAGS") <==> v.LDFLAGS?) && !Assigns(line, "PG_SYSROOT")
  {
    if !v.CPPFLAGS? { AssignedOnce(line, NameOf(v), "CPPFLAGS"); }
    if !v.CFLAGS? { AssignedOnce(line, NameOf(v), "CFLAGS"); }
    if !v.LDFLAGS? { AssignedOnce(line, NameOf(v), "LDFLAGS"); }
    AssignedOnce(line, NameOf(v), "PG_SYSROOT");
  }

  lemma FixedFlags(v: Variable, line: string)
    requires Assigns(line, NameOf(v))
    ensures FixedLine(line) == FlagsLine(v, line)
  {
    OneVariable(v, line);
  }

  lemma BlankedSysroot()
    ensures FixedLine("PG_SYSROOT =").None?
  {
    var line := "PG_SYSROOT =";
    assert line[0] == 'P' && line[1] == 'G';
    if Assigns(line, "CPPFLAGS") { Assigned(line, "CPPFLAGS"); }
    if Assigns(line, "CFLAGS") { Assigned(line, "CFLAGS"); }
    if Assigns(line, "LDFLAGS") { Assigned(line, "LDFLAGS"); }
  }

  /** The variable whose flags a line assigns, if any. */
  function FlagsVariable(line: string): Option<Variable> {
    if Assigns(line, "CPPFLAGS") then Some(CPPFLAGS)
    else if Assigns(line, "CFLAGS") then Some(CFLAGS)
    else if Assigns(line, "LDFLAGS") then Some(LDFLAGS)
    else None
  }

  /** A rewritten line is not rewritten again. */
  lemma FixedOnce(line: string)
    requires FixedLine(line).Some?
    ensures FixedLine(FixedLine(line).value).None?
  {
    if FlagsVariable(line).Some? {
      var v := FlagsVariable(line).value;
      FixedFlags(v, line);
      FlagsLineStable(v, line);
      NamesPlain(v);
      AssignedName(line, NameOf(v));
      var line' := FixedLine(line).value;
      assert StartsWith(line', NameOf(v) + " =");
      FixedFlags(v, line');
    } else {
      BlankedSysroot();
    }
  }

  lemma {:induction false} TrimStartSpace(s: string, c: char)
    requires IsSpace(c)
    ensures TrimStart(s + [c]) == if TrimStart(s) == "" then "" else TrimStart(s) + [c]
  {
    var t := s + [c];
    if s == "" {
      assert t == [c] && t[1..] == "";
    } else if IsSpace(s[0]) {
      TrimStartSpace(s[1..], c);
      assert t[1..] == s[1..] + [c];
    }
  }

  lemma TrimSpaceEnd(s: string, c: char)
    requires IsSpace(c)
    ensures Trim(s + [c]) == Trim(s)
  {
    TrimStartSpace(s, c);
    var t := TrimStart(s) + [c];
    assert t[..|t| - 1] == TrimStart(s);
  }

  /** The line without one trailing carriage return. */
  function ChopReturn(line: string): string {
    if line != "" && line[|line| - 1] == '\r' then line[..|line| - 1] else line
  }

  lemma ChopTrim(line: string)
    ensures Trim(ChopReturn(line)) == Trim(line)
  {
    if ChopReturn(line) != line {
      assert line == ChopReturn(line) + ['\r'];
      TrimSpaceEnd(ChopReturn(line), '\r');
    }
  }

  lemma ChopAssigns(line: string, name: string)
    requires Assigns(ChopReturn(line), name)
    ensures Assigns(line, name)
  {
    var t := ChopReturn(line);
    assert t <= line;
    var p := if StartsWith(t, name + " =") then name + " =" else name + "=";
    assert line[..|p|] == t[..|p|];
  }

  lemma DropAppend(t: string, c: char, n: nat)
    requires n <= |t|
    ensures (t + [c])[n..] == t[n..] + [c]
  {
  }

  lemma ChoppedEquals(t: string)
    requires Equals(t) < |t|
    ensures Equals(t + ['\r']) == Equals(t)
  {
    var line, e := t + ['\r'], Equals(t);
    assert line[e] == '=';
    assert forall k | 0 <= k < e :: line[k] == t[k];
  }

  /** The value of an assignment is trimmed, so a trailing carriage return is no part of it. */
  lemma ChoppedValue(t: string)
    requires Equals(t) < |t|
    ensures Equals(t + ['\r']) == Equals(t) && ValueOf(t + ['\r']) == ValueOf(t)
  {
    var e := Equals(t);
    ChoppedEquals(t);
    DropAppend(t, '\r', e + 1);
    TrimSpaceEnd(t[e + 1..], '\r');
  }

  /** A line that is left alone is still left alone when it loses a trailing carriage return. */
  lemma ChoppedStable(line: string)
    requires FixedLine(line).None?
    ensures FixedLine(ChopReturn(line)).None?
  {
    var t := ChopReturn(line);
    if t != line {
      assert line == t + ['\r'];
      if FlagsVariable(t).Some? {
        var v := FlagsVariable(t).value;
        ChopAssigns(line, NameOf(v));
        FixedFlags(v, t);
        FixedFlags(v, line);
        NamesPlain(v);
        AssignedName(t, NameOf(v));
        ChoppedValue(t);
      } else if Assigns(t, "PG_SYSROOT") {
        ChopAssigns(line, "PG_SYSROOT");
      }
    }
  }

  // --- Conditional blocks ----------------------------------------------------------------------

  predicate OpensBlock(line: string) {
    StartsWith(Trim(line), "ifdef") || StartsWith(Trim(line), "ifndef") || StartsWith(Trim(line), "ifeq")
    || StartsWith(Trim(line), "ifneq")
  }

  predicate ClosesBlock(line: string) {
    !OpensBlock(line) && Trim(line) == "endif"
  }

  predicate StartsProfile(line: string) {
    Trim(line) == "ifdef PROFILE"
  }

  /** How deep the conditionals of `lines` go below where they start. */
  function Nesting(lines: seq<string>): int {
    if lines == [] then 0
    else Nesting(lines[..|lines| - 1])
         + (if OpensBlock(lines[|lines| - 1]) then 1 else if ClosesBlock(lines[|lines| - 1]) then -1 else 0)
  }

  /** The first length at which a block that is `depth` deep has been closed, or the end. */
  function BlockLength(lines: seq<string>, depth: nat): (n: nat)
    ensures n <= |lines|
  {
    if depth == 0 || lines == [] then 0
    else 1 + BlockLength(lines[1..], if OpensBlock(lines[0]) then depth + 1 else if ClosesBlock(lines[0]) then depth - 1 else depth)
  }

  lemma {:induction false} NestingFront(line: string, rest: seq<string>)
    ensures Nesting([line] + rest) == Nesting(rest) + (if OpensBlock(line) then 1 else if ClosesBlock(line) then -1 else 0)
  {
    var all := [line] + rest;
    if rest == [] {
      assert all[..0] == [];
    } else {
      NestingFront(line, rest[..|rest| - 1]);
      assert all[..|all| - 1] == [line] + rest[..|rest| - 1];
    }
  }

  lemma NestingPrefix(lines: seq<string>, k: nat)
    requires 0 < k <= |lines|
    ensures Nesting(lines[..k]) == Nesting(lines[1..][..k - 1]) + (if OpensBlock(lines[0]) then 1 else if ClosesBlock(lines[0]) then -1 else 0)
  {
    NestingFront(lines[0], lines[1..][..k - 1]);
    assert lines[..k] == [lines[0]] + lines[1..][..k - 1];
  }

  /** The removed block ends with the matching `endif`: there the nesting is back, and never before;
      without one it runs to the end. */
  lemma {:induction false} BlockMatches(lines: seq<string>, depth: nat, k: nat)
    requires depth > 0 && k <= BlockLength(lines, depth)
    ensures k < BlockLength(lines, depth) ==> depth + Nesting(lines[..k]) > 0
    ensures k == BlockLength(lines, depth) < |lines| ==> depth + Nesting(lines[..k]) == 0
    ensures depth + Nesting(lines[..k]) >= 0
    decreases |lines|
  {
    if k == 0 || lines == [] {
      assert lines[..0] == [];
      assert k == 0;
    } else {
      var d := if OpensBlock(lines[0]) then depth + 1 else if ClosesBlock(lines[0]) then depth - 1 else depth;
      NestingPrefix(lines, k);
      if d > 0 {
        BlockMatches(lines[1..], d, k - 1);
      } else {
        assert lines[1..][..0] == [];
      }
    }
  }

  function Rewritten(line: string): string {
    if FixedLine(line).Some? then FixedLine(line).value else line
  }

  /** Reference: cut every `ifdef PROFILE` block out, fix every other line. */
  function Sanitised(lines: seq<string>): seq<string>
    decreases |lines|
  {
    if lines == [] then []
    else if StartsProfile(lines[0]) then Sanitised(lines[1..][BlockLength(lines[1..], 1)..])
    else [Rewritten(lines[0])] + Sanitised(lines[1..])
  }

  /** Some line is removed or rewritten. */
  predicate Touches(lines: seq<string>) {
    exists i | 0 <= i < |lines| :: StartsProfile(lines[i]) || FixedLine(lines[i]).Some?
  }

  /** What is left of `lines` inside a block of this depth (0 for none). */
  function Remaining(lines: seq<string>, depth: nat): seq<string> {
    Sanitised(lines[BlockLength(lines, depth)..])
  }

  function DepthAfter(line: string, depth: nat): nat
    requires depth > 0
  {
    if OpensBlock(line) then depth + 1 else if ClosesBlock(line) then depth - 1 else depth
  }

  lemma RemainingStep(lines: seq<string>, depth: nat)
    requires lines != []
    ensures depth > 0 ==> Remaining(lines, depth) == Remaining(lines[1..], DepthAfter(lines[0], depth))
    ensures depth == 0 && StartsProfile(lines[0]) ==> Remaining(lines, depth) == Remaining(lines[1..], 1)
    ensures depth == 0 && !StartsProfile(lines[0]) ==> Remaining(lines, depth) == [Rewritten(lines[0])] + Remaining(lines[1..], 0)
  {
    if depth > 0 {
      var n := BlockLength(lines[1..], DepthAfter(lines[0], depth));
      assert lines[1..][n..] == lines[1 + n..];
    } else {
      assert lines[0..] == lines && lines[1..][0..] == lines[1..];
    }
  }

  lemma TouchesStep(lines: seq<string>, i: nat)
    requires i < |lines|
    ensures Touches(lines[..i + 1]) <==> Touches(lines[..i]) || StartsProfile(lines[i]) || FixedLine(lines[i]).Some?
  {
    var a, b := lines[..i], lines[..i + 1];
    assert forall k | 0 <= k < i :: a[k] == b[k];
    assert b[i] == lines[i];
    if Touches(a) {
      var k :| 0 <= k < |a| && (StartsProfile(a[k]) || FixedLine(a[k]).Some?);
      assert b[k] == a[k];
    }
  }

  /** What one pass of the line loop emits, at which depth it leaves, and whether it changes the file. */
  predicate LineStep(line: string, depth: nat, emitted: seq<string>, next: nat, touched: bool) {
    if depth > 0 then emitted == [] && next == DepthAfter(line, depth) && touched
    else if StartsProfile(line) then emitted == [] && next == 1 && touched
    else emitted == [Rewritten(line)] && next == 0 && touched == FixedLine(line).Some?
  }

  /** What the line loop keeps. */
  ghost predicate Progress(lines: seq<string>, i: nat, out: seq<string>, depth: nat, changed: bool)
    requires i <= |lines|
  {
    && out + Remaining(lines[i..], depth) == Sanitised(lines)
    && (depth > 0 ==> changed)
    && (!changed ==> out == lines[..i])
    && (changed <==> Touches(lines[..i]))
  }

  lemma Regroup<T>(a: seq<T>, b: seq<T>, c: seq<T>)
    ensures a + b + c == a + (b + c)
  {
  }

  lemma ProgressStep(lines: seq<string>, i: nat, out: seq<string>, depth: nat, changed: bool, emitted: seq<string>, next: nat, touched: bool)
    requires i < |lines| && Progress(lines, i, out, depth, changed)
    requires LineStep(lines[i], depth, emitted, next, touched)
    ensures Progress(lines, i + 1, out + emitted, next, changed || touched)
  {
    RemainingStep(lines[i..], depth);
    TouchesStep(lines, i);
    assert lines[i..][1..] == lines[i + 1..];
    Regroup(out, emitted, Remaining(lines[i + 1..], next));
    assert emitted + Remaining(lines[i + 1..], next) == Remaining(lines[i..], depth);
  }

  method SanitiseLine(line: string, depth: nat) returns (emitted: seq<string>, next: nat, touched: bool)
    ensures LineStep(line, depth, emitted, next, touched)
  {
    emitted, next, touched := [], depth, true;
    if depth > 0 {
      if OpensBlock(line) {
        next := depth + 1;
      } else if Trim(line) == "endif" {
        next := depth - 1;
      }
    } else if StartsProfile(line) {
      next := 1;
    } else {
      var fixed := FixedLine(line);
      touched := fixed.Some?;
      emitted := [if fixed.Some? then fixed.value else line];
    }
  }

  /** The line loop of `sanitise_pg_makefiles`. */
  method SanitiseLines(lines: seq<string>) returns (out: seq<string>, changed: bool)
    ensures out == Sanitised(lines)
    ensures changed <==> Touches(lines)
    ensures !changed ==> out == lines
  {
    out, changed := [], false;
    var depth := 0;
    assert lines[0..] == lines;
    for i := 0 to |lines|
      invariant Progress(lines, i, out, depth, changed)
    {
      var emitted, next, touched := SanitiseLine(lines[i], depth);
      ProgressStep(lines, i, out, depth, changed, emitted, next, touched);
      out, depth, changed := out + emitted, next, changed || touched;
    }
    assert lines[|lines|..] == [] && lines[..|lines|] == lines;
  }

  // --- Files -------------------------------------------------------------------------------------

  /** The length of the first line, without its newline. */
  function FirstLine(s: string): (n: nat)
    ensures n <= |s| && (forall k | 0 <= k < n :: s[k] != '\n') && (n < |s| ==> s[n] == '\n')
  {
    if s == "" || s[0] == '\n' then 0 else 1 + FirstLine(s[1..])
  }

  /** `str::lines`: a carriage return before the newline goes with it, one at the very end stays. */
  function Lines(s: string): seq<string>
    decreases |s|
  {
    if s == "" then []
    else if FirstLine(s) == |s| then [s]
    else [ChopReturn(s[..FirstLine(s)])] + Lines(s[FirstLine(s) + 1..])
  }

  /** `join("\n")` and a final newline, for a nonempty list. */
  function Unlines(lines: seq<string>): string {
    if lines == [] then "" else lines[0] + "\n" + Unlines(lines[1..])
  }

  /** The file after one run: written only when something changed. */
  function SanitisedFile(content: string): string {
    if !Touches(Lines(content)) then content
    else if Sanitised(Lines(content)) == [] then "\n"
    else Unlines(Sanitised(Lines(content)))
  }

  /** `sanitise_pg_makefiles` on the text of an existing file: what is written, if anything. */
  method SanitiseFile(content: string) returns (written: Option<string>)
    ensures written.Some? <==> Touches(Lines(content))
    ensures SanitisedFile(content) == (if written.Some? then written.value else content)
  {
    var out, changed := SanitiseLines(Lines(content));
    if !changed {
      return None;
    }
    written := Some(if out == [] then "\n" else Unlines(out));
  }

  predicate OneLine(s: string) {
    forall k | 0 <= k < |s| :: s[k] != '\n'
  }

  predicate OneLiners(lines: seq<string>) {
    forall i | 0 <= i < |lines| :: OneLine(lines[i])
  }

  lemma {:induction false} LinesAreLines(s: string)
    ensures OneLiners(Lines(s))
    decreases |s|
  {
    if s != "" && FirstLine(s) < |s| {
      LinesAreLines(s[FirstLine(s) + 1..]);
    }
  }

  function Chopped(lines: seq<string>): (r: seq<string>)
    ensures |r| == |lines| && forall i | 0 <= i < |r| :: r[i] == ChopReturn(lines[i])
  {
    seq(|lines|, i requires 0 <= i < |lines| => ChopReturn(lines[i]))
  }

  lemma LinesFront(line: string, rest: string)
    requires OneLine(line)
    ensures Lines(line + "\n" + rest) == [ChopReturn(line)] + Lines(rest)
  {
    var s := line + "\n" + rest;
    assert s == line + ("\n" + rest);
    FirstLineOf(line, rest, s);
    assert s[..|line|] == line && s[|line| + 1..] == rest;
  }

  lemma ChoppedFront(lines: seq<string>)
    requires lines != []
    ensures Chopped(lines) == [ChopReturn(lines[0])] + Chopped(lines[1..])
  {
  }

  lemma {:induction false} LinesOfUnlines(lines: seq<string>)
    requires OneLiners(lines)
    ensures Lines(Unlines(lines)) == Chopped(lines)
  {
    if lines != [] {
      assert OneLine(lines[0]);
      LinesFront(lines[0], Unlines(lines[1..]));
      LinesOfUnlines(lines[1..]);
      ChoppedFront(lines);
    }
  }

  lemma FirstLineOf(line: string, rest: string, s: string)
    requires OneLine(line) && s == line + ("\n" + rest)
    ensures FirstLine(s) == |line| < |s|
  {
    assert s[|line|] == '\n';
    assert forall k | 0 <= k < |line| :: s[k] == line[k];
  }

  /** No newline appears in a rewritten line. */
  lemma FixedOneLine(line: string)
    requires OneLine(line) && FixedLine(line).Some?
    ensures OneLine(FixedLine(line).value)
  {
    if FlagsVariable(line).Some? {
      var v := FlagsVariable(line).value;
      FixedFlags(v, line);
      FlagsOneLine(v, line);
    }
  }

  lemma FlagsOneLine(v: Variable, line: string)
    requires Assigns(line, NameOf(v)) && FlagsLine(v, line).Some?
    ensures OneLine(FlagsLine(v, line).value)
  {
    NamesPlain(v);
    AssignedName(line, NameOf(v));
    KeptOneLine(v, ValueOf(line));
    assert OneLine(NameOf(v));
  }

  lemma KeptOneLine(v: Variable, value: string)
    ensures OneLine(Spaced(Kept(v, Words(value))))
  {
    WordsAreWords(value);
    KeptClean(v, Words(value));
    SpacedOneLine(Kept(v, Words(value)));
  }

  lemma {:induction false} SpacedOneLine(ws: seq<string>)
    requires AllWords(ws)
    ensures OneLine(Spaced(ws))
  {
    if ws != [] {
      assert IsWord(ws[0]);
      SpacedOneLine(ws[1..]);
    }
  }

  /** No line of the output would be touched, with or without its trailing carriage return. */
  predicate Settled(lines: seq<string>) {
    forall i | 0 <= i < |lines| ::
      OneLine(lines[i]) && !StartsProfile(ChopReturn(lines[i])) && FixedLine(ChopReturn(lines[i])).None?
  }

  lemma {:induction false} SanitisedSettled(lines: seq<string>)
    requires OneLiners(lines)
    ensures Settled(Sanitised(lines))
    decreases |lines|
  {
    if lines != [] {
      if StartsProfile(lines[0]) {
        SanitisedSettled(lines[1..][BlockLength(lines[1..], 1)..]);
      } else {
        SanitisedSettled(lines[1..]);
        LineSettled(lines[0]);
      }
    }
  }

  lemma LineSettled(line: string)
    requires OneLine(line) && !StartsProfile(line)
    ensures
      var l := if FixedLine(line).Some? then FixedLine(line).value else line;
      OneLine(l) && !StartsProfile(ChopReturn(l)) && FixedLine(ChopReturn(l)).None?
  {
    if FixedLine(line).Some? {
      FixedOneLine(line);
      FixedOnce(line);
      var l := FixedLine(line).value;
      FixedIsAssignment(line);
      ChopTrim(l);
      ChoppedStable(l);
      ProfileIsNoAssignment(l);
    } else {
      ChopTrim(line);
      ChoppedStable(line);
    }
  }

  lemma FixedIsAssignment(line: string)
    requires FixedLine(line).Some?
    ensures FixedLine(line).value != "" && FixedLine(line).value[0] in {'C', 'L', 'P'}
  {
    if FlagsVariable(line).Some? {
      var v := FlagsVariable(line).value;
      FixedFlags(v, line);
      NamesPlain(v);
      AssignedName(line, NameOf(v));
    }
  }

  lemma ProfileIsNoAssignment(line: string)
    requires line != "" && line[0] in {'C', 'L', 'P'}
    ensures !StartsProfile(line)
  {
    assert TrimStart(line) == line;
    TrimEndPrefix(line);
    assert Trim(line) != "" ==> Trim(line)[0] == line[0];
  }

  lemma {:induction false} TrimEndPrefix(s: string)
    ensures TrimEnd(s) <= s
  {
    if s != "" && IsSpace(s[|s| - 1]) {
      TrimEndPrefix(s[..|s| - 1]);
    }
  }

  /** Idempotence, for every file: a second run reports no change and writes nothing. */
  lemma SanitiseIdempotent(content: string)
    ensures !Touches(Lines(SanitisedFile(content)))
    ensures SanitisedFile(SanitisedFile(content)) == SanitisedFile(content)
  {
    var lines := Lines(content);
    LinesAreLines(content);
    SanitisedSettled(lines);
    var out := Sanitised(lines);
    if Touches(lines) {
      if out == [] {
        assert Lines("\n") == [""] by {
          assert "\n"[..0] == "" && "\n"[1..] == "";
        }
        assert FixedLine("").None? && Trim("") == "";
      } else {
        LinesOfUnlines(out);
        forall i | 0 <= i < |out| ensures !StartsProfile(Chopped(out)[i]) && FixedLine(Chopped(out)[i]).None? {}
      }
    }
  }
}
