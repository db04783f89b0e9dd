/** The conditional directives as GNU Make reads them, and where the sanitiser's cut of an `ifdef PROFILE`
    block (`crates/brassclaw_embedded_postgres/build.rs`) ends at Make's matching `endif`.

    Make drops the comment, skips white space and compares the first word; the sanitiser compares the
    whole trimmed line, or its start. */
module MakeDirectives {
  import opened MakefileGlobal

  /** Make's white space: the ASCII part of what Rust trims. */
  predicate MakeSpace(c: char) {
    '\t' <= c <= '\r' || c == ' '
  }

  /** The length of the leading word, which a space or a comment ends. */
  function WordEnd(s: string): (n: nat)
    ensures n <= |s| && (n < |s| ==> MakeSpace(s[n]) || s[n] == '#')
    ensures forall k | 0 <= k < n :: !MakeSpace(s[k]) && s[k] != '#'
  {
    if s == "" || MakeSpace(s[0]) || s[0] == '#' then 0 else 1 + WordEnd(s[1..])
  }

  function FirstWord(line: string): string {
    if line != "" && MakeSpace(line[0]) then FirstWord(line[1..]) else line[..WordEnd(line)]
  }

  predicate MakeOpens(line: string) {
    FirstWord(line) == "ifdef" || FirstWord(line) == "ifndef" || FirstWord(line) == "ifeq" || FirstWord(line) == "ifneq"
  }

  predicate MakeCloses(line: string) {
    FirstWord(line) == "endif"
  }

  /** The sanitiser and Make take the line for the same thing. */
  predicate Agrees(line: string) {
    OpensBlock(line) == MakeOpens(line) && ClosesBlock(line) == MakeCloses(line)
  }

  /** The first length at which, for Make, a block that is `depth` deep has been closed, or the end. */
  function MakeLength(lines: seq<string>, depth: nat): (n: nat)
    ensures n <= |lines|
  {
    if depth == 0 || lines == [] then 0 else 1 + MakeLength(lines[1..], MakeAfter(lines[0], depth))
  }

  function MakeAfter(line: string, depth: nat): nat
    requires depth > 0
  {
    if MakeOpens(line) then depth + 1 else if MakeCloses(line) then depth - 1 else depth
  }

  // --- One line ---------------------------------------------------------------------------------

  lemma {:induction false} TrimEndKeeps(s: string, n: nat)
    requires 0 < n <= |s| && !IsSpace(s[n - 1])
    ensures |TrimEnd(s)| >= n && TrimEnd(s) <= s
    decreases |s|
  {
    if IsSpace(s[|s| - 1]) {
      TrimEndKeeps(s[..|s| - 1], n);
    }
  }

  predicate Keyword(w: string) {
    w != "" && forall k | 0 <= k < |w| :: !IsSpace(w[k])
  }

  /** A line whose first word is `w` still starts with it when it is trimmed. */
  lemma {:induction false} FirstWordTrim(line: string, w: string)
    requires Keyword(w) && FirstWord(line) == w
    ensures StartsWith(Trim(line), w)
  {
    if line != "" && MakeSpace(line[0]) {
      FirstWordTrim(line[1..], w);
    } else {
      assert line[0] == w[0] && line[|w| - 1] == w[|w| - 1];
      TrimEndKeeps(line, |w|);
    }
  }

  /** What Make opens the sanitiser opens, and what Make closes it never opens. */
  lemma OpeningsRead(line: string)
    ensures MakeOpens(line) ==> OpensBlock(line)
    ensures MakeCloses(line) ==> !OpensBlock(line)
  {
    var w := FirstWord(line);
    if MakeOpens(line) || MakeCloses(line) {
      assert Keyword(w);
      FirstWordTrim(line, w);
      assert Trim(line)[0] == w[0];
    }
  }

  /** The sanitiser closes a block here and Make does not. */
  predicate ClosesAlone(line: string) {
    ClosesBlock(line) && !MakeCloses(line)
  }

  lemma {:induction false} TrimEndWord(s: string, w: string)
    requires Keyword(w) && TrimEnd(s) == w && forall k | 0 <= k < |s| && IsSpace(s[k]) :: MakeSpace(s[k])
    requires '#' !in w
    ensures WordEnd(s) == |w| && s[..|w|] == w
    decreases |s|
  {
    TrimEndPrefix(s);
    assert s[..|w|] == w;
    assert forall k | 0 <= k < |w| :: s[k] == w[k];
    if |s| > |w| {
      TrimEndRest(s, |w|);
      assert IsSpace(s[|w|]);
    }
  }

  /** What trimming takes off the end is white space. */
  lemma {:induction false} TrimEndRest(s: string, k: nat)
    requires |TrimEnd(s)| <= k < |s|
    ensures IsSpace(s[k])
    decreases |s|
  {
    if k < |s| - 1 {
      TrimEndRest(s[..|s| - 1], k);
    }
  }

  lemma {:induction false} TrimWord(line: string, w: string)
    requires Keyword(w) && '#' !in w && Trim(line) == w && forall k | 0 <= k < |line| && IsSpace(line[k]) :: MakeSpace(line[k])
    ensures FirstWord(line) == w
  {
    if line != "" && IsSpace(line[0]) {
      TrimWord(line[1..], w);
    } else {
      TrimEndWord(line, w);
    }
  }

  /** That takes white space outside ASCII. */
  lemma ClosesAloneSpaces(line: string)
    requires ClosesAlone(line)
    ensures exists k | 0 <= k < |line| :: IsSpace(line[k]) && !MakeSpace(line[k])
  {
    if forall k | 0 <= k < |line| && IsSpace(line[k]) :: MakeSpace(line[k]) {
      TrimWord(line, "endif");
    }
  }

  // --- The cut ----------------------------------------------------------------------------------

  /** Where the two agree on every line up to Make's matching `endif`, the cut ends with it. */
  lemma {:induction false} CutAgrees(lines: seq<string>, depth: nat)
    requires forall k | 0 <= k < MakeLength(lines, depth) :: Agrees(lines[k])
    ensures BlockLength(lines, depth) == MakeLength(lines, depth)
    decreases |lines|
  {
    if depth > 0 && lines != [] {
      assert Agrees(lines[0]);
      var d := MakeAfter(lines[0], depth);
      forall k | 0 <= k < MakeLength(lines[1..], d) ensures Agrees(lines[1..][k]) {
        assert lines[1..][k] == lines[k + 1];
      }
      CutAgrees(lines[1..], d);
    }
  }

  /** The sanitiser never thinks itself less deep than Make, so it never stops before Make's `endif`;
      once it is deeper it stops later, unless the file ends. */
  lemma {:induction false} CutLater(lines: seq<string>, make: nat, code: nat)
    requires make <= code && forall k | 0 <= k < MakeLength(lines, make) :: !ClosesAlone(lines[k])
    ensures MakeLength(lines, make) <= BlockLength(lines, code)
    ensures make < code && MakeLength(lines, make) < |lines| ==> MakeLength(lines, make) < BlockLength(lines, code)
    decreases |lines|
  {
    if make > 0 && lines != [] {
      OpeningsRead(lines[0]);
      var m, c := MakeAfter(lines[0], make), DepthAfter(lines[0], code);
      assert !ClosesAlone(lines[0]);
      assert m <= c && (make < code ==> m < c);
      forall k | 0 <= k < MakeLength(lines[1..], m) ensures !ClosesAlone(lines[1..][k]) {
        assert lines[1..][k] == lines[k + 1];
      }
      CutLater(lines[1..], m, c);
    }
  }

  /** Exactly: the cut of a block that Make closes before the end of the file ends at Make's `endif` if
      and only if no line up to it is read differently. */
  lemma {:induction false} CutExactly(lines: seq<string>, depth: nat)
    requires depth > 0 && forall k | 0 <= k < MakeLength(lines, depth) :: !ClosesAlone(lines[k])
    ensures BlockLength(lines, depth) == MakeLength(lines, depth) <==>
            (MakeLength(lines, depth) == |lines| || forall k | 0 <= k < MakeLength(lines, depth) :: Agrees(lines[k]))
    decreases |lines|
  {
    CutLater(lines, depth, depth);
    if lines != [] {
      OpeningsRead(lines[0]);
      var m, rest := MakeAfter(lines[0], depth), lines[1..];
      assert !ClosesAlone(lines[0]);
      forall k | 0 <= k < MakeLength(rest, m) ensures !ClosesAlone(rest[k]) && rest[k] == lines[k + 1] {
      }
      if !Agrees(lines[0]) {
        CutLater(rest, m, DepthAfter(lines[0], depth));
      } else if m > 0 {
        CutExactly(rest, m);
        assert (forall k | 0 <= k < MakeLength(lines, depth) :: Agrees(lines[k])) <==>
               (forall k | 0 <= k < MakeLength(rest, m) :: Agrees(rest[k])) by {
          forall k | 0 < k < MakeLength(lines, depth) ensures lines[k] == rest[k - 1] {
          }
        }
      }
    }
  }

  /** The file with the blocks cut as Make matches them. */
  function MakeSanitised(lines: seq<string>): seq<string>
    decreases |lines|
  {
    if lines == [] then []
    else if StartsProfile(lines[0]) then MakeSanitised(lines[1..][MakeLength(lines[1..], 1)..])
    else [Rewritten(lines[0])] + MakeSanitised(lines[1..])
  }

  /** A file on every line of which the two agree loses exactly Make's blocks. */
  lemma {:induction false} SanitisedAgrees(lines: seq<string>)
    requires forall k | 0 <= k < |lines| :: Agrees(lines[k])
    ensures Sanitised(lines) == MakeSanitised(lines)
    decreases |lines|
  {
    if lines != [] {
      var rest := lines[1..];
      assert forall k | 0 <= k < |rest| :: rest[k] == lines[k + 1];
      if StartsProfile(lines[0]) {
        CutAgrees(rest, 1);
        SanitisedAgrees(rest[MakeLength(rest, 1)..]);
      } else {
        SanitisedAgrees(rest);
      }
    }
  }

  /** A closing line that only Make reads as one: Make's block ends there, the sanitiser's takes the rest
      of the file. */
  lemma UnreadEndif(start: string, end: string, rule: string)
    requires StartsProfile(start) && MakeCloses(end) && !OpensBlock(end) && !ClosesBlock(end)
    requires !OpensBlock(rule) && !ClosesBlock(rule) && !StartsProfile(rule)
    ensures Sanitised([start, end, rule]) == [] && MakeSanitised([start, end, rule]) == [Rewritten(rule)]
  {
    var lines, rest := [start, end, rule], [end, rule];
    assert lines[1..] == rest && rest[1..] == [rule] && [rule][1..] == [];
    OpeningsRead(end);
    OpeningsRead(rule);
    assert BlockLength([rule], 1) == 1 + BlockLength([], 1);
    assert BlockLength(rest, 1) == 2;
    assert rest[2..] == [];
    assert MakeLength(rest, 1) == 1 + MakeLength([rule], 0);
    assert MakeSanitised([rule]) == [Rewritten(rule)] + MakeSanitised([]);
  }

  lemma WordBefore(w: string, rest: string)
    requires Keyword(w) && '#' !in w && rest != "" && MakeSpace(rest[0])
    ensures FirstWord(w + rest) == w
  {
    var line := w + rest;
    assert line[|w|] == rest[0] && forall k | 0 <= k < |w| :: line[k] == w[k];
    assert WordEnd(line) == |w|;
  }

  /** Anything after `endif` hides it from the sanitiser and not from Make. */
  lemma EndifRead(rest: string)
    requires rest != "" && MakeSpace(rest[0]) && !IsSpace(rest[|rest| - 1])
    ensures !OpensBlock("endif" + rest) && !ClosesBlock("endif" + rest) && MakeCloses("endif" + rest)
  {
    var line := "endif" + rest;
    WordBefore("endif", rest);
    OpeningsRead(line);
    assert line[0] == 'e' && line[|line| - 1] == rest[|rest| - 1];
    TrimOfTrimmed(line);
    assert |line| > 5;
  }

  lemma RuleRead()
    ensures !OpensBlock("all: x") && !ClosesBlock("all: x") && !StartsProfile("all: x") && Rewritten("all: x") == "all: x"
  {
    var rule := "all: x";
    TrimOfTrimmed(rule);
    assert rule[0] == 'a';
  }

  /** For instance an `endif` with a comment. */
  lemma CommentedEndif()
    ensures Sanitised(["ifdef PROFILE", "endif # PROFILE", "all: x"]) == []
    ensures MakeSanitised(["ifdef PROFILE", "endif # PROFILE", "all: x"]) == ["all: x"]
  {
    TrimOfTrimmed("ifdef PROFILE");
    EndifRead(" # PROFILE");
    assert "endif" + " # PROFILE" == "endif # PROFILE";
    RuleRead();
    UnreadEndif("ifdef PROFILE", "endif # PROFILE", "all: x");
  }
}
