/** The maintained file list of `scripts/sweepfix.py`: the NUL-separated diff parser
    (`_changed_files_between`) and the update of the list from one commit to the next
    (`step3_build_codebaselist`). */
module CodebaseList {
  import opened Text

  // --- The stream ------------------------------------------------------------------------------------

  datatype Change =
    | Added(path: string) | Modified(path: string) | Deleted(path: string) | TypeChanged(path: string)
    | Renamed(score: string, source: string, path: string)
    | Copied(score: string, source: string, path: string)

  const NUL := '\0'

  predicate Digits(s: string) {
    forall k | 0 <= k < |s| :: '0' <= s[k] <= '9'
  }

  /** A token survives the splitting: it is nonempty and holds no NUL. */
  predicate Whole(t: string) {
    t != "" && forall k | 0 <= k < |t| :: t[k] != NUL
  }

  predicate ChangeOk(c: Change) {
    Whole(c.path) && (c.Renamed? || c.Copied? ==> Digits(c.score) && Whole(c.source))
  }

  predicate ChangesOk(cs: seq<Change>) {
    forall i | 0 <= i < |cs| :: ChangeOk(cs[i])
  }

  /** The tokens `git diff --name-status -z` writes for one change. */
  function TokensOf(c: Change): seq<string> {
    match c
    case Added(p) => ["A", p]
    case Modified(p) => ["M", p]
    case Deleted(p) => ["D", p]
    case TypeChanged(p) => ["T", p]
    case Renamed(n, source, p) => ["R" + n, source, p]
    case Copied(n, source, p) => ["C" + n, source, p]
  }

  function Flat(cs: seq<Change>): seq<string> {
    if cs == [] then [] else TokensOf(cs[0]) + Flat(cs[1..])
  }

  /** Every token followed by NUL. */
  function Terminated(ts: seq<string>): string {
    if ts == [] then "" else ts[0] + [NUL] + Terminated(ts[1..])
  }

  function FirstNul(s: string): (n: nat)
    ensures n <= |s| && (n < |s| ==> s[n] == NUL) && forall k | 0 <= k < n :: s[k] != NUL
  {
    if s == "" || s[0] == NUL then 0 else 1 + FirstNul(s[1..])
  }

  /** `[t for t in raw.split("\x00") if t]`. */
  function Tokens(s: string): seq<string>
    decreases |s|
  {
    var n := FirstNul(s);
    var rest := if n < |s| then Tokens(s[n + 1..]) else [];
    if n > 0 then [s[..n]] + rest else rest
  }

  function LStrip(s: string): string {
    if s != "" && Space(s[0]) then LStrip(s[1..]) else s
  }

  function RStrip(s: string): string {
    if s != "" && Space(s[|s| - 1]) then RStrip(s[..|s| - 1]) else s
  }

  /** `str.strip()`. */
  function Strip(s: string): string {
    RStrip(LStrip(s))
  }

  predicate AllWhole(ts: seq<string>) {
    forall i | 0 <= i < |ts| :: Whole(ts[i])
  }

  lemma TokensFront(t: string, rest: string)
    requires Whole(t)
    ensures Tokens(t + [NUL] + rest) == [t] + Tokens(rest)
  {
    var s := t + [NUL] + rest;
    assert FirstNul(s) == |t| by {
      assert s[|t|] == NUL && forall k | 0 <= k < |t| :: s[k] == t[k];
    }
    assert s[..|t|] == t && s[|t| + 1..] == rest;
  }

  lemma {:induction false} TokensTerminated(ts: seq<string>)
    requires AllWhole(ts)
    ensures Tokens(Terminated(ts)) == ts
  {
    if ts != [] {
      assert Whole(ts[0]);
      TokensTerminated(ts[1..]);
      TokensFront(ts[0], Terminated(ts[1..]));
    }
  }

  lemma {:induction false} FlatWhole(cs: seq<Change>)
    requires ChangesOk(cs)
    ensures AllWhole(Flat(cs))
  {
    if cs != [] {
      assert ChangeOk(cs[0]);
      FlatWhole(cs[1..]);
    }
  }

  lemma {:induction false} TerminatedEnd(ts: seq<string>)
    requires ts != []
    ensures Terminated(ts) != "" && Terminated(ts)[|Terminated(ts)| - 1] == NUL
  {
    if |ts| > 1 {
      TerminatedEnd(ts[1..]);
    }
  }

  /** Stripping leaves a nonempty stream alone exactly when its first token does not start with a space. */
  lemma StripTerminated(ts: seq<string>)
    requires ts != [] && AllWhole(ts)
    ensures Strip(Terminated(ts)) == Terminated(ts) <==> !Space(ts[0][0])
  {
    var s := Terminated(ts);
    TerminatedEnd(ts);
    assert Whole(ts[0]) && s[0] == ts[0][0];
    if Space(s[0]) {
      StripShorter(s[1..]);
    }
  }

  lemma {:induction false} StripShorter(s: string)
    ensures |LStrip(s)| <= |s| && |Strip(s)| <= |s|
  {
    LStripShorter(s);
    RStripShorter(LStrip(s));
  }

  lemma {:induction false} LStripShorter(s: string)
    ensures |LStrip(s)| <= |s|
  {
    if s != "" && Space(s[0]) {
      LStripShorter(s[1..]);
    }
  }

  lemma {:induction false} RStripShorter(s: string)
    ensures |RStrip(s)| <= |s|
    decreases |s|
  {
    if s != "" && Space(s[|s| - 1]) {
      RStripShorter(s[..|s| - 1]);
    }
  }

  // --- The parser --------------------------------------------------------------------------------------

  /** `a + b`, without an empty part. */
  function Plus(a: seq<string>, b: seq<string>): seq<string> {
    if b == [] then a else if a == [] then b else a + b
  }

  lemma PlusGroups(a: seq<string>, b: seq<string>, c: seq<string>)
    ensures Plus(Plus(a, b), c) == Plus(a, Plus(b, c))
  {
  }

  datatype Lists = Lists(added: seq<string>, modified: seq<string>, deleted: seq<string>) {
    function Then(rest: Lists): Lists {
      Lists(Plus(added, rest.added), Plus(modified, rest.modified), Plus(deleted, rest.deleted))
    }
  }

  const EMPTY := Lists([], [], [])

  predicate Starts(s: string, c: char) {
    s != "" && s[0] == c
  }

  /** One pass of the parser's loop at position `i`: what it records and where it goes on. */
  function Step(tokens: seq<string>, i: nat): (r: (Lists, nat))
    requires i < |tokens|
    ensures r.1 > i
  {
    var status := Strip(tokens[i]);
    if status == "" then (EMPTY, i + 1)
    else if Starts(status, 'R') || Starts(status, 'C') then
      if i + 2 < |tokens| then (Lists([tokens[i + 2]], [], [tokens[i + 1]]), i + 3) else (EMPTY, i + 1)
    else if i + 1 >= |tokens| then (EMPTY, i + 2)
    else if Starts(status, 'A') then (Lists([tokens[i + 1]], [], []), i + 2)
    else if Starts(status, 'M') then (Lists([], [tokens[i + 1]], []), i + 2)
    else if Starts(status, 'D') then (Lists([], [], [tokens[i + 1]]), i + 2)
    else (EMPTY, i + 2)
  }

  function Scan(tokens: seq<string>, i: nat): Lists
    decreases |tokens| - i
  {
    if i >= |tokens| then EMPTY else Step(tokens, i).0.Then(Scan(tokens, Step(tokens, i).1))
  }

  /** What one change contributes. A copy's source counts as deleted, a type change as nothing. */
  function ListsOf(c: Change): Lists {
    match c
    case Added(p) => Lists([p], [], [])
    case Modified(p) => Lists([], [p], [])
    case Deleted(p) => Lists([], [], [p])
    case TypeChanged(_) => EMPTY
    case Renamed(_, source, p) => Lists([p], [], [source])
    case Copied(_, source, p) => Lists([p], [], [source])
  }

  function Recorded(cs: seq<Change>): Lists {
    if cs == [] then EMPTY else ListsOf(cs[0]).Then(Recorded(cs[1..]))
  }

  lemma StripStatus(s: string)
    requires s != "" && !Space(s[0]) && !Space(s[|s| - 1])
    ensures Strip(s) == s
  {
  }

  lemma StepChange(tokens: seq<string>, i: nat, c: Change)
    requires ChangeOk(c) && i + |TokensOf(c)| <= |tokens| && tokens[i..i + |TokensOf(c)|] == TokensOf(c)
    ensures Step(tokens, i) == (ListsOf(c), i + |TokensOf(c)|)
  {
    var ts := TokensOf(c);
    var here := tokens[i..i + |ts|];
    assert tokens[i] == here[0] && tokens[i + 1] == here[1];
    assert c.Renamed? || c.Copied? ==> tokens[i + 2] == here[2];
    StripStatus(ts[0]);
  }

  lemma FlatFront(tokens: seq<string>, i: nat, cs: seq<Change>)
    requires cs != [] && i <= |tokens| && tokens[i..] == Flat(cs)
    ensures var n := |TokensOf(cs[0])|;
            i + n <= |tokens| && tokens[i..i + n] == TokensOf(cs[0]) && tokens[i + n..] == Flat(cs[1..])
  {
    var n, here := |TokensOf(cs[0])|, tokens[i..];
    assert here[..n] == TokensOf(cs[0]) && here[n..] == Flat(cs[1..]);
    assert tokens[i..i + n] == here[..n] && tokens[i + n..] == here[n..];
  }

  /** The parser never loses step with the stream, whatever the paths look like. */
  lemma {:induction false} ScanRecorded(tokens: seq<string>, i: nat, cs: seq<Change>)
    requires ChangesOk(cs) && i <= |tokens| && tokens[i..] == Flat(cs)
    ensures Scan(tokens, i) == Recorded(cs)
    decreases |cs|
  {
    if cs != [] {
      var n := |TokensOf(cs[0])|;
      assert ChangeOk(cs[0]);
      FlatFront(tokens, i, cs);
      StepChange(tokens, i, cs[0]);
      ScanRecorded(tokens, i + n, cs[1..]);
    }
  }

  /** One pass of the token loop. */
  method ReadChange(tokens: seq<string>, i: nat, r: Lists) returns (r': Lists, next: nat)
    requires i < |tokens|
    ensures r' == r.Then(Step(tokens, i).0) && next == Step(tokens, i).1
  {
    r', next := r, i + 1;
    var status := Strip(tokens[i]);
    if status == "" {
      return;
    }
    if Starts(status, 'R') || Starts(status, 'C') {
      if i + 2 < |tokens| {
        r' := Lists(r.added + [tokens[i + 2]], r.modified, r.deleted + [tokens[i + 1]]);
        next := i + 3;
      }
      return;
    }
    if i + 1 < |tokens| {
      if Starts(status, 'A') {
        r' := r.(added := r.added + [tokens[i + 1]]);
      } else if Starts(status, 'M') {
        r' := r.(modified := r.modified + [tokens[i + 1]]);
      } else if Starts(status, 'D') {
        r' := r.(deleted := r.deleted + [tokens[i + 1]]);
      }
    }
    next := i + 2;
  }

  /** `_changed_files_between`, given the output of git. */
  method ChangedFiles(stdout: string) returns (r: Lists)
    ensures r == Scan(Tokens(Strip(stdout)), 0)
  {
    var tokens := Tokens(Strip(stdout));
    r := EMPTY;
    var i := 0;
    while i < |tokens|
      invariant r.Then(Scan(tokens, i)) == Scan(tokens, 0)
      decreases |tokens| - i
    {
      var more, next := ReadChange(tokens, i, r);
      ScanStep(tokens, i, r, more, next);
      r, i := more, next;
    }
  }

  lemma ScanStep(tokens: seq<string>, i: nat, before: Lists, after: Lists, next: nat)
    requires i < |tokens| && after == before.Then(Step(tokens, i).0) && next == Step(tokens, i).1
    ensures before.Then(Scan(tokens, i)) == after.Then(Scan(tokens, next))
  {
    var step, rest := Step(tokens, i).0, Scan(tokens, next);
    PlusGroups(before.added, step.added, rest.added);
    PlusGroups(before.modified, step.modified, rest.modified);
    PlusGroups(before.deleted, step.deleted, rest.deleted);
  }

  /** The parser recovers the changes that git wrote. */
  lemma ChangesRecovered(cs: seq<Change>)
    requires ChangesOk(cs)
    ensures Scan(Tokens(Strip(Terminated(Flat(cs)))), 0) == Recorded(cs)
  {
    var ts := Flat(cs);
    FlatWhole(cs);
    TokensTerminated(ts);
    if cs != [] {
      assert TokensOf(cs[0])[0] == ts[0];
      StripTerminated(ts);
    }
    assert ts[0..] == ts;
    ScanRecorded(ts, 0, cs);
  }

  // --- The list ------------------------------------------------------------------------------------------

  /** An entry: whether the file is to be scanned again, and what the last scan found. */
  datatype Entry = Entry(marked: bool, findings: seq<string>)

  type FileList = map<string, Entry>

  /** The files of a commit. The content stands for everything git compares. */
  type Tree = map<string, string>

  const TOUCHED := Entry(true, [])

  /** `_passes_gating` reads the path only: here any predicate on paths. */
  type Gate = string -> bool

  function Gated(gate: Gate, t: Tree): set<string> {
    set p | p in t && gate(p)
  }

  /** The three loops, as one description of the new list. */
  ghost predicate Maintained(gate: Gate, list: FileList, l: Lists, list': FileList) {
    && (forall p :: p in list' <==> (p in list && p !in l.deleted) || (p in l.added && gate(p)))
    && (forall p | p in list' :: list'[p] == (if (p in l.added && gate(p)) || p in l.modified then TOUCHED else list[p]))
  }

  /** Deleted paths leave, modified ones are marked, added ones enter if they pass. */
  method Maintain(gate: Gate, list: FileList, l: Lists) returns (list': FileList)
    ensures Maintained(gate, list, l, list')
  {
    list' := Remove(list, l.deleted);
    list' := Remark(list', l.modified);
    list' := Insert(gate, list', l.added);
  }

  method Remove(list: FileList, paths: seq<string>) returns (list': FileList)
    ensures forall p :: p in list' <==> p in list && p !in paths
    ensures forall p | p in list' :: list'[p] == list[p]
  {
    list' := list;
    for i := 0 to |paths|
      invariant forall p :: p in list' <==> p in list && p !in paths[..i]
      invariant forall p | p in list' :: list'[p] == list[p]
    {
      assert forall p :: p in paths[..i + 1] <==> p in paths[..i] || p == paths[i];
      if paths[i] in list' {
        list' := list' - {paths[i]};
      }
    }
    assert paths[..|paths|] == paths;
  }

  method Remark(list: FileList, paths: seq<string>) returns (list': FileList)
    ensures list'.Keys == list.Keys
    ensures forall p | p in list' :: list'[p] == (if p in paths then TOUCHED else list[p])
  {
    list' := list;
    for i := 0 to |paths|
      invariant list'.Keys == list.Keys
      invariant forall p | p in list' :: list'[p] == (if p in paths[..i] then TOUCHED else list[p])
    {
      assert forall p :: p in paths[..i + 1] <==> p in paths[..i] || p == paths[i];
      if paths[i] in list' {
        list' := list'[paths[i] := TOUCHED];
      }
    }
    assert paths[..|paths|] == paths;
  }

  method Insert(gate: Gate, list: FileList, paths: seq<string>) returns (list': FileList)
    ensures forall p :: p in list' <==> p in list || (p in paths && gate(p))
    ensures forall p | p in list' :: list'[p] == (if p in paths && gate(p) then TOUCHED else list[p])
  {
    list' := list;
    for i := 0 to |paths|
      invariant forall p :: p in list' <==> p in list || (p in paths[..i] && gate(p))
      invariant forall p | p in list' :: list'[p] == (if p in paths[..i] && gate(p) then TOUCHED else list[p])
    {
      assert forall p :: p in paths[..i + 1] <==> p in paths[..i] || p == paths[i];
      if gate(paths[i]) {
        list' := list'[paths[i] := TOUCHED];
      }
    }
    assert paths[..|paths|] == paths;
  }

  // --- Diffs -----------------------------------------------------------------------------------------------

  predicate Adds(c: Change, p: string) { (c.Added? || c.Renamed? || c.Copied?) && c.path == p }
  predicate Removes(c: Change, p: string) { (c.Deleted? && c.path == p) || (c.Renamed? && c.source == p) }
  predicate Copies(c: Change, p: string) { c.Copied? && c.source == p }
  predicate Edits(c: Change, p: string) { c.Modified? && c.path == p }
  predicate Retypes(c: Change, p: string) { c.TypeChanged? && c.path == p }

  predicate SomeAdds(cs: seq<Change>, p: string) { exists i | 0 <= i < |cs| :: Adds(cs[i], p) }
  predicate SomeRemoves(cs: seq<Change>, p: string) { exists i | 0 <= i < |cs| :: Removes(cs[i], p) }
  predicate SomeCopies(cs: seq<Change>, p: string) { exists i | 0 <= i < |cs| :: Copies(cs[i], p) }
  predicate SomeEdits(cs: seq<Change>, p: string) { exists i | 0 <= i < |cs| :: Edits(cs[i], p) }
  predicate SomeRetypes(cs: seq<Change>, p: string) { exists i | 0 <= i < |cs| :: Retypes(cs[i], p) }

  /** `cs` is a diff from `t` to `t'`: it names every path that comes, goes or changes, and no other. */
  ghost predicate Describes(cs: seq<Change>, t: Tree, t': Tree) {
    && ChangesOk(cs)
    && (forall p :: SomeAdds(cs, p) <==> p in t' && p !in t)
    && (forall p :: SomeRemoves(cs, p) <==> p in t && p !in t')
    && (forall p :: (SomeEdits(cs, p) || SomeRetypes(cs, p)) <==> p in t && p in t' && t[p] != t'[p])
    && (forall p :: SomeCopies(cs, p) ==> p in t)
  }

  lemma {:induction false} RecordedAdded(cs: seq<Change>, p: string)
    ensures p in Recorded(cs).added <==> SomeAdds(cs, p)
    ensures p in Recorded(cs).modified <==> SomeEdits(cs, p)
    ensures p in Recorded(cs).deleted <==> SomeRemoves(cs, p) || SomeCopies(cs, p)
  {
    if cs != [] {
      var c, rest := cs[0], cs[1..];
      RecordedAdded(rest, p);
      FrontExists(cs, p);
      assert p in ListsOf(c).added <==> Adds(c, p);
      assert p in ListsOf(c).modified <==> Edits(c, p);
      assert p in ListsOf(c).deleted <==> Removes(c, p) || Copies(c, p);
    }
  }

  lemma FrontExists(cs: seq<Change>, p: string)
    requires cs != []
    ensures SomeAdds(cs, p) <==> Adds(cs[0], p) || SomeAdds(cs[1..], p)
    ensures SomeEdits(cs, p) <==> Edits(cs[0], p) || SomeEdits(cs[1..], p)
    ensures SomeRemoves(cs, p) <==> Removes(cs[0], p) || SomeRemoves(cs[1..], p)
    ensures SomeCopies(cs, p) <==> Copies(cs[0], p) || SomeCopies(cs[1..], p)
  {
    assert cs == [cs[0]] + cs[1..];
    assert forall i | 0 <= i < |cs| - 1 :: cs[1..][i] == cs[i + 1];
  }

  /** The copied files whose source is still there and belongs in the list. */
  ghost predicate NoCopiedSource(gate: Gate, cs: seq<Change>, t': Tree) {
    forall p | SomeCopies(cs, p) && gate(p) :: p !in t'
  }

  /** One commit: the maintained paths are the gated files of the new commit exactly when no listed
      file was the source of a copy, because the parser takes that source for deleted. */
  lemma ListExactly(gate: Gate, t: Tree, t': Tree, cs: seq<Change>, list: FileList, list': FileList)
    requires Describes(cs, t, t') && list.Keys == Gated(gate, t)
    requires Maintained(gate, list, Recorded(cs), list')
    ensures list'.Keys == Gated(gate, t') <==> NoCopiedSource(gate, cs, t')
  {
    forall p
      ensures p in list' <==> (p in Gated(gate, t) && !SomeRemoves(cs, p) && !SomeCopies(cs, p)) || (SomeAdds(cs, p) && gate(p))
    {
      RecordedAdded(cs, p);
      assert p in list <==> p in list.Keys;
    }
    forall p
      ensures p in Gated(gate, t') <==> (p in Gated(gate, t) && !SomeRemoves(cs, p)) || (SomeAdds(cs, p) && gate(p))
    {
    }
    if NoCopiedSource(gate, cs, t') {
      forall p
        ensures p in list'.Keys <==> p in Gated(gate, t')
      {
        assert SomeCopies(cs, p) && gate(p) ==> p !in t';
      }
    } else {
      var p :| SomeCopies(cs, p) && gate(p) && p in t';
      assert p in Gated(gate, t') && p !in list';
      assert p !in list'.Keys;
    }
  }

  /** For instance: with `diff.renames=copies`, git reports a file that was edited and copied as a change
      and a copy; the parser then takes the edited source off the list. */
  lemma CopyDropsSource(gate: Gate, list': FileList)
    requires gate("a.rs")
    requires Maintained(gate, map["a.rs" := TOUCHED], Recorded([Modified("a.rs"), Copied("100", "a.rs", "b.rs")]), list')
    ensures Describes([Modified("a.rs"), Copied("100", "a.rs", "b.rs")], map["a.rs" := "1"], map["a.rs" := "2", "b.rs" := "1"])
    ensures "a.rs" !in list' && list'.Keys != Gated(gate, map["a.rs" := "2", "b.rs" := "1"])
  {
    var t': Tree := map["a.rs" := "2", "b.rs" := "1"];
    var cs := [Modified("a.rs"), Copied("100", "a.rs", "b.rs")];
    EditedCopy(cs);
    RecordedAdded(cs, "a.rs");
    assert "a.rs" in Gated(gate, t') && "a.rs" !in list'.Keys;
  }

  lemma EditedCopy(cs: seq<Change>)
    requires cs == [Modified("a.rs"), Copied("100", "a.rs", "b.rs")]
    ensures Describes(cs, map["a.rs" := "1"], map["a.rs" := "2", "b.rs" := "1"])
    ensures SomeCopies(cs, "a.rs") && !SomeAdds(cs, "a.rs")
  {
    assert ChangeOk(cs[0]) && ChangeOk(cs[1]);
    assert "a.rs" != "b.rs" by { assert "a.rs"[0] != "b.rs"[0]; }
    forall p
      ensures SomeAdds(cs, p) <==> p == "b.rs"
      ensures SomeCopies(cs, p) <==> p == "a.rs"
      ensures SomeEdits(cs, p) <==> p == "a.rs"
      ensures !SomeRemoves(cs, p) && !SomeRetypes(cs, p)
    {
      assert Adds(cs[1], p) <==> p == "b.rs";
      assert Copies(cs[1], p) <==> p == "a.rs";
      assert Edits(cs[0], p) <==> p == "a.rs";
    }
  }

  /** Every entry of the new list, exactly: a new file is marked; a file whose content changed is marked,
      with its findings gone, if and only if git calls the change a modification and not a change of type;
      anything else is as it was. */
  lemma EntriesExactly(gate: Gate, t: Tree, t': Tree, cs: seq<Change>, list: FileList, list': FileList, p: string)
    requires Describes(cs, t, t') && list.Keys == Gated(gate, t)
    requires Maintained(gate, list, Recorded(cs), list') && p in list'
    ensures p in t'
    ensures p !in t ==> list'[p] == TOUCHED
    ensures p in t ==> p in list && list'[p] == if t[p] != t'[p] && SomeEdits(cs, p) then TOUCHED else list[p]
    ensures p in t && t[p] != t'[p] && !SomeEdits(cs, p) ==> SomeRetypes(cs, p)
  {
    RecordedAdded(cs, p);
    assert p in list <==> p in list.Keys;
  }

  /** For instance: a file that becomes a link keeps its mark and its findings. */
  lemma TypeChangeUnmarked(gate: Gate, list': FileList, entry: Entry)
    requires gate("a.rs")
    requires Maintained(gate, map["a.rs" := entry], Recorded([TypeChanged("a.rs")]), list')
    ensures Describes([TypeChanged("a.rs")], map["a.rs" := "file"], map["a.rs" := "link"])
    ensures "a.rs" in list' && list'["a.rs"] == entry
  {
    var cs := [TypeChanged("a.rs")];
    assert ChangeOk(cs[0]);
    assert "file" != "link" by { assert "file"[0] != "link"[0]; }
    forall p
      ensures SomeRetypes(cs, p) <==> p == "a.rs"
      ensures !SomeAdds(cs, p) && !SomeRemoves(cs, p) && !SomeCopies(cs, p) && !SomeEdits(cs, p)
    {
      assert Retypes(cs[0], p) <==> p == "a.rs";
    }
    RecordedAdded(cs, "a.rs");
  }

  // --- Whole histories ---------------------------------------------------------------------------------------

  /** One run of step 3 on the way from `t` to `t'`: other steps may have rewritten marks and findings of
      the list before it, never its paths; the diff arrives as git's own output. */
  ghost predicate Run(gate: Gate, t: Tree, t': Tree, cs: seq<Change>, list: FileList, list': FileList) {
    && Describes(cs, t, t') && NoCopiedSource(gate, cs, t')
    && exists scanned: FileList :: scanned.Keys == list.Keys &&
         Maintained(gate, scanned, Scan(Tokens(Strip(Terminated(Flat(cs)))), 0), list')
  }

  ghost predicate History(gate: Gate, trees: seq<Tree>, diffs: seq<seq<Change>>, lists: seq<FileList>) {
    && |trees| == |lists| == |diffs| + 1
    && forall i | 0 <= i < |diffs| :: Run(gate, trees[i], trees[i + 1], diffs[i], lists[i], lists[i + 1])
  }

  /** After any sequence of commits the list holds exactly the gated tracked files of the last one. */
  lemma {:induction false} HistoryExact(gate: Gate, trees: seq<Tree>, diffs: seq<seq<Change>>, lists: seq<FileList>, i: nat)
    requires History(gate, trees, diffs, lists) && i < |trees| && lists[0].Keys == Gated(gate, trees[0])
    ensures lists[i].Keys == Gated(gate, trees[i])
  {
    if i > 0 {
      var k := i - 1;
      HistoryExact(gate, trees, diffs, lists, k);
      assert Run(gate, trees[k], trees[k + 1], diffs[k], lists[k], lists[k + 1]);
      ChangesRecovered(diffs[k]);
      var scanned: FileList :| scanned.Keys == lists[k].Keys && Maintained(gate, scanned, Recorded(diffs[k]), lists[k + 1]);
      ListExactly(gate, trees[k], trees[k + 1], diffs[k], scanned, lists[k + 1]);
    }
  }

  // --- The first list ------------------------------------------------------------------------------------------

  /** `_build_codebaselist_fresh`, given the output of `git ls-files -z`. */
  method FreshList(gate: Gate, stdout: string) returns (list: FileList)
    ensures forall p :: p in list <==> p in Tokens(Strip(stdout)) && gate(p)
    ensures forall p | p in list :: list[p] == TOUCHED
  {
    var files := Tokens(Strip(stdout));
    list := map[];
    for i := 0 to |files|
      invariant forall p :: p in list <==> p in files[..i] && gate(p)
      invariant forall p | p in list :: list[p] == TOUCHED
    {
      assert forall p :: p in files[..i + 1] <==> p in files[..i] || p == files[i];
      if gate(files[i]) {
        list := list[files[i] := TOUCHED];
      }
    }
    assert files[..|files|] == files;
  }

  lemma {:induction false} LStripFront(a: string, rest: string)
    ensures LStrip(a + [NUL] + rest) == LStrip(a) + [NUL] + rest
  {
    var s := a + [NUL] + rest;
    if a != "" && Space(a[0]) {
      assert s[1..] == a[1..] + [NUL] + rest;
      LStripFront(a[1..], rest);
    }
  }

  lemma RStripNul(s: string)
    requires s != "" && s[|s| - 1] == NUL
    ensures RStrip(s) == s
  {
  }

  lemma TokensEmptyFront(rest: string)
    ensures Tokens([NUL] + rest) == Tokens(rest)
  {
    var s := [NUL] + rest;
    assert s[1..] == rest && FirstNul(s) == 0;
  }

  lemma {:induction false} LStripWhole(a: string)
    requires forall k | 0 <= k < |a| :: a[k] != NUL
    ensures forall k | 0 <= k < |LStrip(a)| :: LStrip(a)[k] != NUL
  {
    if a != "" && Space(a[0]) {
      LStripWhole(a[1..]);
    }
  }

  lemma StrippedListing(order: seq<string>)
    requires AllWhole(order) && order != []
    ensures Strip(Terminated(order)) == LStrip(order[0]) + [NUL] + Terminated(order[1..])
  {
    var rest := Terminated(order[1..]);
    LStripFront(order[0], rest);
    EndsWithNul(LStrip(order[0]), order[1..]);
    RStripNul(LStrip(order[0]) + [NUL] + rest);
  }

  lemma EndsWithNul(a: string, ts: seq<string>)
    ensures var s := a + [NUL] + Terminated(ts); s != "" && s[|s| - 1] == NUL
  {
    if ts != [] {
      TerminatedEnd(ts);
    }
  }

  lemma TokensFirst(first: string, rest: string)
    requires forall k | 0 <= k < |first| :: first[k] != NUL
    ensures Tokens(first + [NUL] + rest) == (if first == "" then Tokens(rest) else [first] + Tokens(rest))
  {
    if first == "" {
      assert first + [NUL] + rest == [NUL] + rest;
      TokensEmptyFront(rest);
    } else {
      TokensFront(first, rest);
    }
  }

  /** Stripping the listing costs the first path its leading spaces, and nothing else. */
  lemma ListedTokens(order: seq<string>)
    requires AllWhole(order) && order != []
    ensures Tokens(Strip(Terminated(order))) == (if LStrip(order[0]) == "" then order[1..] else [LStrip(order[0])] + order[1..])
  {
    assert Whole(order[0]);
    StrippedListing(order);
    LStripWhole(order[0]);
    TokensTerminated(order[1..]);
    TokensFirst(LStrip(order[0]), Terminated(order[1..]));
  }

  /** The first list is the gated tracked files exactly when the first listed path keeps its name, or
      neither it nor what is left of it makes a difference. */
  lemma FreshExactly(gate: Gate, t: Tree, order: seq<string>, list: FileList)
    requires AllWhole(order) && order != [] && order[0] !in order[1..] && (forall p :: p in t <==> p in order)
    requires forall p :: p in list <==> p in Tokens(Strip(Terminated(order))) && gate(p)
    ensures list.Keys == Gated(gate, t) <==>
            !Space(order[0][0]) || (!gate(order[0]) && (var short := LStrip(order[0]); short != "" && gate(short) ==> short in order[1..]))
  {
    ListedTokens(order);
    var short := LStrip(order[0]);
    assert Whole(order[0]);
    assert order == [order[0]] + order[1..];
    if Space(order[0][0]) {
      LStripShorter(order[0][1..]);
      assert short != order[0];
      if list.Keys == Gated(gate, t) {
        assert order[0] !in list.Keys;
        assert short != "" && gate(short) ==> short in list.Keys;
      }
    } else {
      assert short == order[0];
    }
    if !Space(order[0][0]) || (!gate(order[0]) && (short != "" && gate(short) ==> short in order[1..])) {
      assert forall p :: p in list.Keys <==> p in Gated(gate, t);
    }
  }

  /** For instance: the only tracked file is ` a.rs`, and the first list holds `a.rs` instead. */
  lemma SpacedNameLost(gate: Gate, list: FileList)
    requires gate(" a.rs") && forall p :: p in list <==> p in Tokens(Strip(Terminated([" a.rs"]))) && gate(p)
    ensures " a.rs" !in list && ("a.rs" in list <==> gate("a.rs"))
    ensures list.Keys != Gated(gate, map[" a.rs" := "1"])
  {
    SpacedTokens();
    assert " a.rs" != "a.rs" by { assert |" a.rs"| != |"a.rs"|; }
    assert " a.rs" in Gated(gate, map[" a.rs" := "1"]) && " a.rs" !in list.Keys;
  }

  lemma SpacedTokens()
    ensures Tokens(Strip(Terminated([" a.rs"]))) == ["a.rs"]
  {
    var name := " a.rs";
    assert Whole(name) && name[1..] == "a.rs";
    assert LStrip(name) == "a.rs" by {
      assert name[0] == ' ' && !Space("a.rs"[0]);
    }
    ListedTokens([name]);
    assert [name][1..] == [];
  }
}
