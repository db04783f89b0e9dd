/** Documentation sections (`source_units`, `card_for_unit` and `validate_card` of
    `scripts/prefix/brassclaw-prefix-upgrade.py`): a document is cut at its headings, and every
    section travels with the opening pieces of its ancestor sections. */
module SourceUnits {
  import opened Wrappers
  import T = Text

  // --- Lines and character classes -----------------------------------------------------

  /** The line boundaries of `str.splitlines`. */
  predicate IsBreak(c: char) {
    '\n' <= c <= '\r' || '\U{1c}' <= c <= '\U{1e}' || c == '\U{85}' || c == '\U{2028}' || c == '\U{2029}'
  }

  function FirstLine(s: string): (n: nat)
    requires s != ""
    ensures 1 <= n <= |s|
  {
    if s[0] == '\r' && |s| > 1 && s[1] == '\n' then 2
    else if IsBreak(s[0]) || |s| == 1 then 1
    else 1 + FirstLine(s[1..])
  }

  /** `splitlines(keepends=True)`. */
  function SplitLines(s: string): seq<string> {
    if s == "" then [] else [s[..FirstLine(s)]] + SplitLines(s[FirstLine(s)..])
  }

  function Join(lines: seq<string>): string {
    if lines == [] then "" else lines[0] + Join(lines[1..])
  }

  lemma {:induction false} JoinSplit(s: string)
    ensures Join(SplitLines(s)) == s
  {
    if s != "" {
      JoinSplit(s[FirstLine(s)..]);
      assert s == s[..FirstLine(s)] + s[FirstLine(s)..];
    }
  }

  lemma Regroup<T>(a: seq<T>, b: seq<T>, c: seq<T>)
    ensures a + b + c == a + (b + c)
  {
  }

  lemma {:induction false} JoinAppend(a: seq<string>, b: seq<string>)
    ensures Join(a + b) == Join(a) + Join(b)
  {
    if a == [] {
      assert a + b == b;
    } else {
      JoinAppend(a[1..], b);
      assert (a + b)[1..] == a[1..] + b;
      Regroup(a[0], Join(a[1..]), Join(b));
    }
  }

  function SpaceRun(s: string): (n: nat)
    ensures n <= |s|
  {
    if s != "" && T.Space(s[0]) then 1 + SpaceRun(s[1..]) else 0
  }

  function CharRun(s: string, c: char): (n: nat)
    ensures n <= |s|
  {
    if s != "" && s[0] == c then 1 + CharRun(s[1..], c) else 0
  }

  /** `len(s.strip())`. */
  function StrippedLength(s: string): nat {
    if s == "" then 0
    else if T.Space(s[0]) then StrippedLength(s[1..])
    else if T.Space(s[|s| - 1]) then StrippedLength(s[..|s| - 1])
    else |s|
  }

  // --- Headings ----------------------------------------------------------------------

  /** A fence: its character and its length. */
  datatype Fence = Fence(mark: char, length: nat)

  /** The scanner's memory: the open fence, and the underline characters seen so far with their levels. */
  datatype Memory = Memory(fence: Option<Fence>, marks: map<char, nat>)

  function FenceMarker(line: string): Option<Fence> {
    var rest := line[SpaceRun(line)..];
    if SpaceRun(line) > 3 then None
    else if CharRun(rest, '`') >= 3 then Some(Fence('`', CharRun(rest, '`')))
    else if CharRun(rest, '~') >= 3 then Some(Fence('~', CharRun(rest, '~')))
    else None
  }

  /** One to six heading characters followed by white space. */
  function MarkedLevel(line: string, c: char): nat {
    var n := CharRun(line, c);
    if 1 <= n <= 6 && n < |line| && T.Space(line[n]) then n else 0
  }

  const UNDERLINES := {'=', '-', '~', '^', '"', '\'', '`', ':', '+', '*', '#', '_'}

  predicate IsUnderline(line: string) {
    && line != "" && line[0] in UNDERLINES && CharRun(line, line[0]) >= 4
    && forall i | CharRun(line, line[0]) <= i < |line| :: T.Space(line[i])
  }

  predicate IsRstTitle(lines: seq<string>, i: nat)
    requires i < |lines|
  {
    && StrippedLength(lines[i]) > 0 && !T.Space(lines[i][0])
    && i + 1 < |lines| && IsUnderline(lines[i + 1]) && StrippedLength(lines[i + 1]) >= StrippedLength(lines[i])
  }

  /** What line `i` does to the scanner, and its heading level (0 for none). */
  function Classify(lines: seq<string>, suffix: string, i: nat, m: Memory): (Memory, nat)
    requires i < |lines|
  {
    if suffix == ".rst" then
      if IsRstTitle(lines, i) then
        var mark := lines[i + 1][0];
        var marks := if mark in m.marks then m.marks else m.marks[mark := |m.marks| + 1];
        (m.(marks := marks), marks[mark])
      else (m, 0)
    else
      match FenceMarker(lines[i])
      case Some(f) =>
        if m.fence.None? then (m.(fence := Some(f)), 0)
        else if f.mark == m.fence.value.mark && f.length >= m.fence.value.length then (m.(fence := None), 0)
        else (m, 0)
      case None =>
        (m, if m.fence.Some? then 0 else MarkedLevel(lines[i], if suffix == ".adoc" then '=' else '#'))
  }

  function MemoryAt(lines: seq<string>, suffix: string, i: nat): Memory
    requires i <= |lines|
  {
    if i == 0 then Memory(None, map[]) else Classify(lines, suffix, i - 1, MemoryAt(lines, suffix, i - 1)).0
  }

  /** The heading level of every line. */
  function Levels(lines: seq<string>, suffix: string): (r: seq<nat>)
    ensures |r| == |lines|
  {
    seq(|lines|, i requires 0 <= i < |lines| => Classify(lines, suffix, i, MemoryAt(lines, suffix, i)).1)
  }

  // --- The ancestor chain, by definition -------------------------------------------------

  /** The headings before `i` that enclose a section of level `h`: the nearest one of smaller level,
      preceded by those that enclose it in turn. */
  function Ancestors(levels: seq<nat>, i: nat, h: nat): seq<nat>
    requires i <= |levels|
    decreases i
  {
    if i == 0 then []
    else if 0 < levels[i - 1] < h then Ancestors(levels, i - 1, levels[i - 1]) + [i - 1]
    else Ancestors(levels, i - 1, h)
  }

  /** The parents of the section that starts at `i`. */
  function Parents(levels: seq<nat>, i: nat): seq<nat>
    requires i < |levels|
  {
    if levels[i] == 0 then [] else Ancestors(levels, i, levels[i])
  }

  /** The first heading at or after `i`, or the end. */
  function NextHeading(levels: seq<nat>, i: nat): (r: nat)
    requires i <= |levels|
    ensures i <= r <= |levels|
    ensures forall k | i <= k < r :: levels[k] == 0
    ensures r < |levels| ==> levels[r] > 0
    decreases |levels| - i
  {
    if i == |levels| || levels[i] > 0 then i else NextHeading(levels, i + 1)
  }

  /** Where the piece that starts at `i` ends. */
  function EndOf(levels: seq<nat>, i: nat): nat
    requires i < |levels|
  {
    NextHeading(levels, i + 1)
  }

  // --- The units, by definition ----------------------------------------------------------

  datatype Unit = Unit(start: nat, end: nat, excerpt: string, parents: string)

  function Piece(lines: seq<string>, levels: seq<nat>, i: nat): string
    requires |levels| == |lines| && i < |lines|
  {
    Join(lines[i..EndOf(levels, i)])
  }

  predicate Within(ps: seq<nat>, n: nat) {
    forall k | 0 <= k < |ps| :: ps[k] < n
  }

  /** The pieces of `ps`, joined by newlines. */
  function Pieces(lines: seq<string>, levels: seq<nat>, ps: seq<nat>): string
    requires |levels| == |lines| && Within(ps, |lines|)
  {
    if ps == [] then ""
    else if |ps| == 1 then Piece(lines, levels, ps[0])
    else Piece(lines, levels, ps[0]) + "\n" + Pieces(lines, levels, ps[1..])
  }

  /** Ancestors are earlier headings of smaller level. */
  predicate Enclosing(levels: seq<nat>, ps: seq<nat>, i: nat, h: nat)
    requires i <= |levels|
  {
    forall k | 0 <= k < |ps| :: ps[k] < i && 0 < levels[ps[k]] < h
  }

  lemma {:induction false} AncestorsBefore(levels: seq<nat>, i: nat, h: nat)
    requires i <= |levels|
    ensures Within(Ancestors(levels, i, h), i) && Enclosing(levels, Ancestors(levels, i, h), i, h)
    decreases i
  {
    if i > 0 {
      if 0 < levels[i - 1] < h {
        var up := Ancestors(levels, i - 1, levels[i - 1]);
        AncestorsBefore(levels, i - 1, levels[i - 1]);
        assert Enclosing(levels, up + [i - 1], i, h);
      } else {
        AncestorsBefore(levels, i - 1, h);
      }
    }
  }

  /** The heading at `j` is still open at `i` for a section of level `h`: it is higher up, and no
      heading in between is as high as it. */
  predicate StillOpen(levels: seq<nat>, j: nat, i: nat, h: nat)
    requires i <= |levels|
  {
    j < i && 0 < levels[j] < h && forall k | j < k < i :: levels[k] == 0 || levels[k] > levels[j]
  }

  /** Rising in position and in level. */
  predicate Nested(levels: seq<nat>, ps: seq<nat>)
    requires Within(ps, |levels|)
  {
    forall a, b | 0 <= a < b < |ps| :: ps[a] < ps[b] && levels[ps[a]] < levels[ps[b]]
  }

  /** The chain holds exactly the headings that are still open, outermost first. */
  lemma {:induction false} AncestorsExactly(levels: seq<nat>, i: nat, h: nat)
    requires i <= |levels|
    ensures Within(Ancestors(levels, i, h), |levels|) && Nested(levels, Ancestors(levels, i, h))
    ensures forall j: nat :: j in Ancestors(levels, i, h) <==> StillOpen(levels, j, i, h)
    decreases i
  {
    AncestorsBefore(levels, i, h);
    if i > 0 {
      if 0 < levels[i - 1] < h {
        AncestorsBefore(levels, i - 1, levels[i - 1]);
        AncestorsExactly(levels, i - 1, levels[i - 1]);
      } else {
        AncestorsExactly(levels, i - 1, h);
      }
    }
  }

  function UnitAt(lines: seq<string>, levels: seq<nat>, i: nat): Unit
    requires |levels| == |lines| && i < |lines|
  {
    AncestorsBefore(levels, i, levels[i]);
    Unit(i + 1, EndOf(levels, i), Piece(lines, levels, i), Pieces(lines, levels, Parents(levels, i)))
  }

  /** The units from line `i`, which starts one, to the end. */
  function UnitsFrom(lines: seq<string>, levels: seq<nat>, i: nat): seq<Unit>
    requires |levels| == |lines| && i <= |lines|
    decreases |lines| - i
  {
    if i == |lines| then [] else [UnitAt(lines, levels, i)] + UnitsFrom(lines, levels, EndOf(levels, i))
  }

  const DOCUMENT_SUFFIXES := {".md", ".rst", ".adoc", ".txt"}

  function Units(text: string, suffix: string): seq<Unit> {
    var lines := SplitLines(text);
    if suffix !in DOCUMENT_SUFFIXES then (if lines == [] then [] else [Unit(1, |lines|, text, "")])
    else UnitsFrom(lines, Levels(lines, suffix), 0)
  }

  // --- The monotone stack ------------------------------------------------------------------

  datatype Open = Open(depth: nat, start: nat)

  function Below(stack: seq<Open>, h: nat): (r: seq<Open>)
    ensures forall o | o in r :: o in stack && o.depth < h
  {
    if stack == [] then []
    else if stack[0].depth < h then [stack[0]] + Below(stack[1..], h)
    else Below(stack[1..], h)
  }

  function Opens(levels: seq<nat>, ps: seq<nat>): (r: seq<Open>)
    requires Within(ps, |levels|)
    ensures |r| == |ps| && forall k | 0 <= k < |r| :: r[k] == Open(levels[ps[k]], ps[k])
  {
    seq(|ps|, k requires 0 <= k < |ps| => Open(levels[ps[k]], ps[k]))
  }

  /** The headings that are open before line `i`. */
  function Visible(levels: seq<nat>, i: nat): seq<nat>
    requires i <= |levels|
  {
    if i == 0 then []
    else if levels[i - 1] > 0 then Ancestors(levels, i - 1, levels[i - 1]) + [i - 1]
    else Visible(levels, i - 1)
  }

  lemma {:induction false} BelowAppend(a: seq<Open>, b: seq<Open>, h: nat)
    ensures Below(a + b, h) == Below(a, h) + Below(b, h)
  {
    if a == [] {
      assert a + b == b;
    } else {
      BelowAppend(a[1..], b, h);
      assert (a + b)[1..] == a[1..] + b;
      Regroup([a[0]], Below(a[1..], h), Below(b, h));
    }
  }

  lemma {:induction false} BelowAll(a: seq<Open>, h: nat)
    requires forall o | o in a :: o.depth < h
    ensures Below(a, h) == a
  {
    if a != [] {
      BelowAll(a[1..], h);
    }
  }

  lemma OpensAppend(levels: seq<nat>, ps: seq<nat>, p: nat)
    requires p < |levels| && Within(ps, |levels|)
    ensures Within(ps + [p], |levels|)
    ensures Opens(levels, ps + [p]) == Opens(levels, ps) + [Open(levels[p], p)]
  {
  }

  /** Filtering the chain of heading `j`: it stays whole, or loses `j` and is filtered further. */
  lemma BelowChain(levels: seq<nat>, j: nat, h: nat)
    requires j < |levels| && levels[j] > 0
    ensures Within(Ancestors(levels, j, levels[j]), |levels|) && Within(Ancestors(levels, j, levels[j]) + [j], |levels|)
    ensures
      var up := Ancestors(levels, j, levels[j]);
      Below(Opens(levels, up + [j]), h) == if levels[j] < h then Opens(levels, up + [j]) else Below(Opens(levels, up), h)
  {
    var up := Ancestors(levels, j, levels[j]);
    AncestorsBefore(levels, j, levels[j]);
    OpensAppend(levels, up, j);
    var chain := Opens(levels, up);
    BelowAppend(chain, [Open(levels[j], j)], h);
    if levels[j] < h {
      forall o | o in chain ensures o.depth < h {
        var k :| 0 <= k < |chain| && chain[k] == o;
        assert 0 < levels[up[k]] < levels[j];
      }
      BelowAll(chain, h);
    }
  }

  /** Dropping the entries that are not below `h'` leaves exactly the ancestors for level `h'`. */
  lemma {:induction false} BelowAncestors(levels: seq<nat>, i: nat, h: nat, h': nat)
    requires i <= |levels| && h' <= h
    ensures Within(Ancestors(levels, i, h), |levels|) && Within(Ancestors(levels, i, h'), |levels|)
    ensures Below(Opens(levels, Ancestors(levels, i, h)), h') == Opens(levels, Ancestors(levels, i, h'))
    decreases i
  {
    AncestorsBefore(levels, i, h);
    AncestorsBefore(levels, i, h');
    if i > 0 {
      var l := levels[i - 1];
      if 0 < l < h {
        BelowChain(levels, i - 1, h');
        if l >= h' {
          BelowAncestors(levels, i - 1, l, h');
        }
      } else {
        BelowAncestors(levels, i - 1, h, h');
      }
    }
  }

  lemma {:induction false} VisibleBefore(levels: seq<nat>, i: nat)
    requires i <= |levels|
    ensures Within(Visible(levels, i), i)
  {
    if i > 0 {
      VisibleBefore(levels, i - 1);
      AncestorsBefore(levels, i - 1, levels[i - 1]);
    }
  }

  /** The code's filter of the stack computes the ancestors of a new heading of level `h`. */
  lemma {:induction false} BelowVisible(levels: seq<nat>, i: nat, h: nat)
    requires i <= |levels| && h > 0
    ensures Within(Visible(levels, i), |levels|) && Within(Ancestors(levels, i, h), |levels|)
    ensures Below(Opens(levels, Visible(levels, i)), h) == Opens(levels, Ancestors(levels, i, h))
  {
    VisibleBefore(levels, i);
    AncestorsBefore(levels, i, h);
    if i > 0 {
      if levels[i - 1] > 0 {
        BelowChain(levels, i - 1, h);
        if levels[i - 1] >= h {
          BelowAncestors(levels, i - 1, levels[i - 1], h);
        }
      } else {
        BelowVisible(levels, i - 1, h);
      }
    }
  }

  // --- source_units ------------------------------------------------------------------------

  /** Unit starts among the first `n` lines: line 0 and every later heading. */
  function Starts(levels: seq<nat>, n: nat): (r: seq<nat>)
    requires n <= |levels|
    ensures |r| > 0 && r[0] == 0
  {
    if n == 0 then [0]
    else if levels[n - 1] > 0 && n > 1 then Starts(levels, n - 1) + [n - 1]
    else Starts(levels, n - 1)
  }

  predicate Rising(s: seq<nat>) {
    forall i, j | 0 <= i < j < |s| :: s[i] < s[j]
  }

  lemma {:induction false} StartsExact(levels: seq<nat>, n: nat)
    requires 0 < n <= |levels|
    ensures Rising(Starts(levels, n))
    ensures forall x: nat :: x in Starts(levels, n) <==> x < n && (x == 0 || levels[x] > 0)
  {
    if n > 1 {
      StartsExact(levels, n - 1);
      var prev := Starts(levels, n - 1);
      assert forall k | 0 <= k < |prev| :: prev[k] in prev;
    } else {
      assert Starts(levels, 0) == [0];
    }
  }

  lemma RisingSnoc(s: seq<nat>, x: nat)
    requires Rising(s) && forall k | 0 <= k < |s| :: s[k] < x
    ensures Rising(s + [x])
  {
  }

  lemma BoundsRising(levels: seq<nat>, bounds: seq<nat>)
    requires |levels| > 0 && bounds == Starts(levels, |levels|) + [|levels|]
    ensures Rising(bounds) && bounds[0] == 0
    ensures forall j | 0 <= j < |bounds| - 1 :: bounds[j] < |levels| && (bounds[j] == 0 || levels[bounds[j]] > 0)
    ensures forall x | 0 <= x < |levels| && (x == 0 || levels[x] > 0) :: exists j :: 0 <= j < |bounds| - 1 && bounds[j] == x
  {
    StartsExact(levels, |levels|);
    var starts := Starts(levels, |levels|);
    assert forall j | 0 <= j < |starts| :: starts[j] in starts && bounds[j] == starts[j];
    RisingSnoc(starts, |levels|);
    forall x | 0 <= x < |levels| && (x == 0 || levels[x] > 0) ensures exists j :: 0 <= j < |bounds| - 1 && bounds[j] == x {
      assert x in starts;
      var j :| 0 <= j < |starts| && starts[j] == x;
      assert bounds[j] == x;
    }
  }

  /** Consecutive boundaries are a start and the end of its piece. */
  lemma BoundariesExact(levels: seq<nat>, bounds: seq<nat>, k: nat)
    requires |levels| > 0 && bounds == Starts(levels, |levels|) + [|levels|] && k + 1 < |bounds|
    ensures bounds[k] < |levels| && bounds[k + 1] == EndOf(levels, bounds[k])
  {
    BoundsRising(levels, bounds);
    var r := EndOf(levels, bounds[k]);
    assert bounds[k] < bounds[k + 1];
    if r < bounds[k + 1] {
      assert 0 <= r < |levels| && levels[r] > 0;
      var j :| 0 <= j < |bounds| - 1 && bounds[j] == r;
      assert j <= k || j >= k + 1;
    }
  }

  /** `dict(zip(boundaries, boundaries[1:]))`. */
  function Ends(bounds: seq<nat>): map<nat, nat> {
    if |bounds| < 2 then map[] else map[bounds[0] := bounds[1]] + Ends(bounds[1..])
  }

  lemma {:induction false} EndsAt(bounds: seq<nat>, k: nat)
    requires Rising(bounds) && k + 1 < |bounds|
    ensures bounds[k] in Ends(bounds) && Ends(bounds)[bounds[k]] == bounds[k + 1]
  {
    EndsKeys(bounds[1..]);
    if k > 0 {
      EndsAt(bounds[1..], k - 1);
    } else {
      forall x | x in Ends(bounds[1..]) ensures x != bounds[0] {
        var j :| 0 <= j < |bounds[1..]| && bounds[1..][j] == x;
      }
    }
  }

  lemma {:induction false} EndsKeys(bounds: seq<nat>)
    ensures forall x | x in Ends(bounds) :: x in bounds
  {
    if |bounds| >= 2 {
      EndsKeys(bounds[1..]);
    }
  }

  /** `'\n'.join(''.join(lines[parent:ends[parent]]) for parent in above)`. */
  function Openings(lines: seq<string>, ends: map<nat, nat>, above: seq<nat>): string
    requires forall k | 0 <= k < |above| :: above[k] in ends && above[k] <= ends[above[k]] <= |lines|
  {
    if above == [] then ""
    else
      var head := Join(lines[above[0]..ends[above[0]]]);
      if |above| == 1 then head else head + "\n" + Openings(lines, ends, above[1..])
  }

  lemma {:induction false} OpeningsArePieces(lines: seq<string>, levels: seq<nat>, ends: map<nat, nat>, above: seq<nat>)
    requires |levels| == |lines| && Within(above, |lines|)
    requires forall k | 0 <= k < |above| :: above[k] in ends && above[k] <= ends[above[k]] <= |lines|
    requires forall k | 0 <= k < |above| :: ends[above[k]] == EndOf(levels, above[k])
    ensures Openings(lines, ends, above) == Pieces(lines, levels, above)
  {
    if |above| > 1 {
      OpeningsArePieces(lines, levels, ends, above[1..]);
    }
  }

  lemma HeadingStep(levels: seq<nat>, i: nat, stack: seq<Open>)
    requires i < |levels| && levels[i] > 0
    requires Within(Visible(levels, i), |levels|) && stack == Opens(levels, Visible(levels, i))
    ensures Within(Visible(levels, i + 1), |levels|)
    ensures
      var kept := Below(stack, levels[i]);
      && |kept| == |Ancestors(levels, i, levels[i])|
      && (forall k | 0 <= k < |kept| :: kept[k].start == Ancestors(levels, i, levels[i])[k])
      && kept + [Open(levels[i], i)] == Opens(levels, Visible(levels, i + 1))
  {
    BelowVisible(levels, i, levels[i]);
    OpensAppend(levels, Ancestors(levels, i, levels[i]), i);
    VisibleBefore(levels, i + 1);
  }

  /** Every heading among the first `i` lines has its ancestors recorded. */
  ghost predicate Recorded(levels: seq<nat>, parents: map<nat, seq<nat>>, i: nat)
    requires i <= |levels|
  {
    && (forall j: nat :: j in parents <==> j < i && levels[j] > 0)
    && (forall j | j in parents :: parents[j] == Ancestors(levels, j, levels[j]))
  }

  lemma RecordedStep(levels: seq<nat>, parents: map<nat, seq<nat>>, i: nat)
    requires i < |levels| && Recorded(levels, parents, i)
    ensures levels[i] == 0 ==> Recorded(levels, parents, i + 1)
    ensures levels[i] > 0 ==> Recorded(levels, parents[i := Ancestors(levels, i, levels[i])], i + 1)
  {
  }

  /** A heading closes every open section that is not above it, and opens its own. */
  method PushHeading(ghost levels: seq<nat>, i: nat, heading: nat, stack: seq<Open>)
    returns (above: seq<nat>, stack': seq<Open>)
    requires i < |levels| && levels[i] == heading > 0
    requires Within(Visible(levels, i), |levels|) && stack == Opens(levels, Visible(levels, i))
    ensures above == Ancestors(levels, i, heading)
    ensures Within(Visible(levels, i + 1), |levels|) && stack' == Opens(levels, Visible(levels, i + 1))
  {
    HeadingStep(levels, i, stack);
    var kept := Below(stack, heading);
    above := seq(|kept|, k requires 0 <= k < |kept| => kept[k].start);
    stack' := kept + [Open(heading, i)];
  }

  /** One heading: its parents, and the boundary in front of it unless it opens the document. */
  method OpenSection(ghost levels: seq<nat>, i: nat, heading: nat, bounds: seq<nat>, parents: map<nat, seq<nat>>, stack: seq<Open>)
    returns (bounds': seq<nat>, parents': map<nat, seq<nat>>, stack': seq<Open>)
    requires i < |levels| && levels[i] == heading > 0
    requires Scanned(levels, i, bounds, parents, stack)
    ensures Scanned(levels, i + 1, bounds', parents', stack')
  {
    RecordedStep(levels, parents, i);
    var above;
    above, stack' := PushHeading(levels, i, heading, stack);
    parents' := parents[i := above];
    bounds' := if i > 0 then bounds + [i] else bounds;
  }

  /** What the scan has built after `i` lines. */
  ghost predicate Scanned(levels: seq<nat>, i: nat, bounds: seq<nat>, parents: map<nat, seq<nat>>, stack: seq<Open>)
    requires i <= |levels|
  {
    && Within(Visible(levels, i), |levels|) && stack == Opens(levels, Visible(levels, i))
    && bounds == Starts(levels, i) && Recorded(levels, parents, i)
  }

  lemma ScannedOn(levels: seq<nat>, i: nat, bounds: seq<nat>, parents: map<nat, seq<nat>>, stack: seq<Open>)
    requires i < |levels| && levels[i] == 0 && Scanned(levels, i, bounds, parents, stack)
    ensures Scanned(levels, i + 1, bounds, parents, stack)
  {
    RecordedStep(levels, parents, i);
  }

  /** The scan over the lines: boundaries, and the stack filtered at every heading. */
  method ScanHeadings(lines: seq<string>, suffix: string) returns (bounds: seq<nat>, parents: map<nat, seq<nat>>)
    ensures bounds == Starts(Levels(lines, suffix), |lines|) + [|lines|]
    ensures Recorded(Levels(lines, suffix), parents, |lines|)
  {
    ghost var levels := Levels(lines, suffix);
    bounds, parents := [0], map[];
    var stack: seq<Open> := [];
    var memory := Memory(None, map[]);
    for i := 0 to |lines|
      invariant memory == MemoryAt(lines, suffix, i)
      invariant Scanned(levels, i, bounds, parents, stack)
    {
      var (next, heading) := Classify(lines, suffix, i, memory);
      memory := next;
      if heading > 0 {
        bounds, parents, stack := OpenSection(levels, i, heading, bounds, parents, stack);
      } else {
        ScannedOn(levels, i, bounds, parents, stack);
      }
    }
    bounds := bounds + [|lines|];
  }

  lemma UnitsStep(lines: seq<string>, levels: seq<nat>, units: seq<Unit>, i: nat)
    requires |levels| == |lines| && i < |lines|
    ensures units + UnitsFrom(lines, levels, i) == units + [UnitAt(lines, levels, i)] + UnitsFrom(lines, levels, EndOf(levels, i))
  {
  }

  /** `source_units`: every document, of every suffix, is cut into exactly the units defined above. */
  method Segment(text: string, suffix: string) returns (units: seq<Unit>)
    ensures units == Units(text, suffix)
  {
    var lines := SplitLines(text);
    if suffix !in DOCUMENT_SUFFIXES {
      return if lines == [] then [] else [Unit(1, |lines|, text, "")];
    }
    var bounds, parents := ScanHeadings(lines, suffix);
    if lines == [] {
      return [];
    }
    var ends := Ends(bounds);
    ghost var levels := Levels(lines, suffix);
    units := [];
    BoundsRising(levels, bounds);
    for k := 0 to |bounds| - 1
      invariant bounds[k] <= |lines| && units + UnitsFrom(lines, levels, bounds[k]) == UnitsFrom(lines, levels, 0)
    {
      var start, end := bounds[k], bounds[k + 1];
      BoundariesExact(levels, bounds, k);
      var above := if start in parents then parents[start] else [];
      AboveIsParents(lines, levels, bounds, start, above);
      UnitsStep(lines, levels, units, start);
      units := units + [Unit(start + 1, end, Join(lines[start..end]), Openings(lines, ends, above))];
    }
  }

  lemma AboveIsParents(lines: seq<string>, levels: seq<nat>, bounds: seq<nat>, start: nat, above: seq<nat>)
    requires |levels| == |lines| > 0 && bounds == Starts(levels, |levels|) + [|levels|] && start < |levels|
    requires above == Parents(levels, start)
    ensures Within(above, |lines|)
    ensures forall k | 0 <= k < |above| ::
        above[k] in Ends(bounds) && Ends(bounds)[above[k]] == EndOf(levels, above[k]) && above[k] <= Ends(bounds)[above[k]] <= |lines|
    ensures Openings(lines, Ends(bounds), above) == Pieces(lines, levels, above)
  {
    AncestorsBefore(levels, start, levels[start]);
    BoundsRising(levels, bounds);
    forall k | 0 <= k < |above| ensures above[k] in Ends(bounds) && Ends(bounds)[above[k]] == EndOf(levels, above[k]) {
      assert levels[above[k]] > 0;
      var j :| 0 <= j < |bounds| - 1 && bounds[j] == above[k];
      BoundariesExact(levels, bounds, j);
      EndsAt(bounds, j);
    }
    OpeningsArePieces(lines, levels, Ends(bounds), above);
  }

  // --- What the units are ------------------------------------------------------------------

  function Excerpts(units: seq<Unit>): string {
    if units == [] then "" else units[0].excerpt + Excerpts(units[1..])
  }

  /** Consecutive, nonempty line ranges from line `first` to line `last`. */
  predicate Tiles(units: seq<Unit>, first: nat, last: nat) {
    if units == [] then first == last + 1
    else units[0].start == first && units[0].start <= units[0].end && Tiles(units[1..], units[0].end + 1, last)
  }

  lemma {:induction false} UnitsFromTile(lines: seq<string>, levels: seq<nat>, i: nat)
    requires |levels| == |lines| && i <= |lines|
    ensures Tiles(UnitsFrom(lines, levels, i), i + 1, |lines|)
    decreases |lines| - i
  {
    if i < |lines| {
      var rest := UnitsFrom(lines, levels, EndOf(levels, i));
      UnitsFromTile(lines, levels, EndOf(levels, i));
      ExcerptsFront(UnitAt(lines, levels, i), rest);
    }
  }

  lemma JoinSlices(lines: seq<string>, i: nat, e: nat)
    requires i <= e <= |lines|
    ensures Join(lines[i..]) == Join(lines[i..e]) + Join(lines[e..])
  {
    JoinAppend(lines[i..e], lines[e..]);
    assert lines[i..e] + lines[e..] == lines[i..];
  }

  lemma ExcerptsFront(u: Unit, rest: seq<Unit>)
    ensures Excerpts([u] + rest) == u.excerpt + Excerpts(rest)
  {
    assert ([u] + rest)[1..] == rest;
  }

  lemma {:induction false} UnitsFromJoin(lines: seq<string>, levels: seq<nat>, i: nat)
    requires |levels| == |lines| && i <= |lines|
    ensures Excerpts(UnitsFrom(lines, levels, i)) == Join(lines[i..])
    decreases |lines| - i
  {
    if i < |lines| {
      var e := EndOf(levels, i);
      var rest := UnitsFrom(lines, levels, e);
      UnitsFromJoin(lines, levels, e);
      ExcerptsFront(UnitAt(lines, levels, i), rest);
      JoinSlices(lines, i, e);
    }
  }

  /** The units partition the document's lines in order and concatenate back to it. */
  lemma UnitsPartition(text: string, suffix: string)
    ensures Tiles(Units(text, suffix), 1, |SplitLines(text)|)
    ensures Excerpts(Units(text, suffix)) == text
  {
    var lines := SplitLines(text);
    JoinSplit(text);
    if suffix in DOCUMENT_SUFFIXES {
      UnitsFromTile(lines, Levels(lines, suffix), 0);
      UnitsFromJoin(lines, Levels(lines, suffix), 0);
      assert lines[0..] == lines;
    } else if lines != [] {
      var u := Units(text, suffix);
      assert u[1..] == [];
      assert Excerpts(u) == text + Excerpts([]);
    }
  }

  lemma {:induction false} UnitsFromAre(lines: seq<string>, levels: seq<nat>, i: nat, u: Unit)
    requires |levels| == |lines| && i <= |lines| && u in UnitsFrom(lines, levels, i)
    ensures i < u.start <= |lines| && u == UnitAt(lines, levels, u.start - 1)
    decreases |lines| - i
  {
    if u != UnitAt(lines, levels, i) {
      UnitsFromAre(lines, levels, EndOf(levels, i), u);
    }
  }

  /** A unit is known by its first line. */
  lemma UnitByStart(text: string, suffix: string, u: Unit, v: Unit)
    requires u in Units(text, suffix) && v in Units(text, suffix) && u.start == v.start
    ensures u == v
  {
    var lines := SplitLines(text);
    if suffix in DOCUMENT_SUFFIXES {
      UnitsFromAre(lines, Levels(lines, suffix), 0, u);
      UnitsFromAre(lines, Levels(lines, suffix), 0, v);
    }
  }

  // --- Cards -------------------------------------------------------------------------------

  datatype Digest = Sha256(text: string)
  datatype Identity = Identity(repo: string, path: string, snapshot: Digest, start: nat, end: nat)
  datatype Card = Card(
    schema: int, status: string, id: Identity, repo: string, path: string, documentSha256: Digest,
    excerptSha256: Digest, lineStart: int, lineEnd: int, parentHeadings: string, excerpt: string)

  const EXACT := "exact-source-excerpt"

  function LastName(path: string): string {
    if path == "" then "" else if '/' in path then LastName(path[1..]) else path
  }

  /** The last dot of `name` at or before `i`, if it is not the first character. */
  function DotBefore(name: string, i: nat): nat
    requires i <= |name|
  {
    if i == 0 then 0 else if name[i - 1] == '.' then i - 1 else DotBefore(name, i - 1)
  }

  /** `Path(path).suffix`. */
  function Suffix(path: string): string {
    var name := LastName(path);
    var dot := DotBefore(name, |name|);
    if 0 < dot < |name| - 1 then name[dot..] else ""
  }

  function CardFor(repo: string, path: string, document: string, u: Unit): Card {
    Card(1, EXACT, Identity(repo, path, Sha256(document), u.start, u.end), repo, path, Sha256(document),
         Sha256(u.excerpt), u.start, u.end, u.parents, u.excerpt)
  }

  /** The parent context of the first unit with this range. */
  function ContextOf(units: seq<Unit>, start: int, end: int): Option<string> {
    if units == [] then None
    else if units[0].start == start && units[0].end == end then Some(units[0].parents)
    else ContextOf(units[1..], start, end)
  }

  /** `validate_card` returns rather than raises. */
  predicate Accepts(card: Card, document: string) {
    var lines := SplitLines(document);
    && card.schema == 1 && card.status == EXACT
    && 1 <= card.lineStart <= card.lineEnd <= |lines|
    && var exact := Join(lines[card.lineStart - 1..card.lineEnd]);
    && Sha256(document) == card.documentSha256 && exact == card.excerpt && Sha256(exact) == card.excerptSha256
    && ContextOf(Units(document, Suffix(card.path)), card.lineStart, card.lineEnd) == Some(card.parentHeadings)
  }

  lemma {:induction false} ContextFound(units: seq<Unit>, start: int, end: int)
    ensures ContextOf(units, start, end).Some? ==>
      exists u :: u in units && u.start == start && u.end == end && u.parents == ContextOf(units, start, end).value
    ensures ContextOf(units, start, end).None? ==> forall u | u in units :: !(u.start == start && u.end == end)
  {
    if units != [] {
      ContextFound(units[1..], start, end);
    }
  }

  lemma UnitExact(text: string, suffix: string, u: Unit)
    requires u in Units(text, suffix)
    ensures 1 <= u.start <= u.end <= |SplitLines(text)| && u.excerpt == Join(SplitLines(text)[u.start - 1..u.end])
  {
    var lines := SplitLines(text);
    if suffix in DOCUMENT_SUFFIXES {
      UnitsFromAre(lines, Levels(lines, suffix), 0, u);
    } else {
      JoinSplit(text);
      assert lines[0..|lines|] == lines;
    }
  }

  /** A card is accepted exactly when its range, excerpt and parent context are those of one unit of the
      document and its digests are those of the document and the excerpt; any other range, excerpt or
      context is refused. */
  lemma AcceptedExactly(card: Card, document: string)
    ensures Accepts(card, document) <==>
      && card.schema == 1 && card.status == EXACT && card.lineStart >= 0 && card.lineEnd >= 0
      && card.documentSha256 == Sha256(document) && card.excerptSha256 == Sha256(card.excerpt)
      && Unit(card.lineStart, card.lineEnd, card.excerpt, card.parentHeadings) in Units(document, Suffix(card.path))
  {
    var units := Units(document, Suffix(card.path));
    ContextFound(units, card.lineStart, card.lineEnd);
    if Accepts(card, document) {
      var u :| u in units && u.start == card.lineStart && u.end == card.lineEnd && u.parents == card.parentHeadings;
      UnitExact(document, Suffix(card.path), u);
    }
    if card.lineStart >= 0 && card.lineEnd >= 0
       && Unit(card.lineStart, card.lineEnd, card.excerpt, card.parentHeadings) in units {
      var u := Unit(card.lineStart, card.lineEnd, card.excerpt, card.parentHeadings);
      UnitExact(document, Suffix(card.path), u);
      var v :| v in units && v.start == u.start && v.end == u.end
               && v.parents == ContextOf(units, card.lineStart, card.lineEnd).value;
      UnitByStart(document, Suffix(card.path), u, v);
    }
  }

  /** Every card built from a unit is accepted. */
  lemma BuiltCardsAccepted(repo: string, path: string, document: string, u: Unit)
    requires u in Units(document, Suffix(path))
    ensures Accepts(CardFor(repo, path, document, u), document)
  {
    AcceptedExactly(CardFor(repo, path, document, u), document);
  }
}
