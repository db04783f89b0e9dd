/** Splitting a document into bounded token pieces (`split_long_token_ids` and `atomize_text` of
    `scripts/prefix/brassclaw-prefix-upgrade.py`). */
module Atomizer {
  import opened Wrappers
  import opened Packing

  type Ids = seq<int>

  /** The tokens of some consecutive lines, or a part of one line that is too long. */
  datatype Piece = Group(first: nat, last: nat, ids: Ids) | Part(first: nat, ids: Ids)

  function Last(p: Piece): nat {
    if p.Group? then p.last else p.first
  }

  datatype Sizes = Sizes(target: int, max: int)

  // --- One long line ---------------------------------------------------------------------------------

  /** `split_long_token_ids` for a positive maximum. */
  function SplitLong(ids: Ids, max: int): (r: seq<Ids>)
    requires max >= 1
    ensures forall k | 0 <= k < |r| :: 1 <= |r[k]| <= max
    decreases |ids|
  {
    if ids == [] then []
    else if |ids| <= max then [ids]
    else [ids[..max]] + SplitLong(ids[max..], max)
  }

  lemma {:induction false} ConcatFront<T>(x: seq<T>, rest: seq<seq<T>>)
    ensures Concat([x] + rest) == x + Concat(rest)
  {
    var all := [x] + rest;
    if rest == [] {
      assert all[..0] == [];
    } else {
      assert all[..|all| - 1] == [x] + rest[..|rest| - 1];
      ConcatFront(x, rest[..|rest| - 1]);
    }
  }

  /** Nothing is lost in splitting, and every part but the last is full. */
  lemma {:induction false} SplitConserves(ids: Ids, max: int)
    requires max >= 1
    ensures Concat(SplitLong(ids, max)) == ids
    ensures forall k | 0 <= k < |SplitLong(ids, max)| - 1 :: |SplitLong(ids, max)[k]| == max
    decreases |ids|
  {
    if |ids| > max {
      var rest := SplitLong(ids[max..], max);
      SplitConserves(ids[max..], max);
      ConcatFront(ids[..max], rest);
      assert ids == ids[..max] + ids[max..];
    } else if ids != [] {
      assert [ids][..0] == [];
    }
  }

  // --- What the pieces promise -------------------------------------------------------------------------

  function IdsOf(pieces: seq<Piece>): seq<Ids> {
    seq(|pieces|, k requires 0 <= k < |pieces| => pieces[k].ids)
  }

  /** The next line with tokens, from `k` on. */
  function NextLine(lines: seq<Ids>, k: nat): (n: nat)
    requires k <= |lines|
    ensures k <= n <= |lines| && (n < |lines| ==> lines[n] != []) && forall m | k <= m < n :: lines[m] == []
    decreases |lines| - k
  {
    if k == |lines| || lines[k] != [] then k else NextLine(lines, k + 1)
  }

  /** A group of this size does not take that line. */
  predicate Refuses(z: Sizes, size: nat, line: Ids) {
    |line| > z.max || size >= z.target || size + |line| > z.target
  }

  /** A group is whole lines, bounded, and ended only because the next line with tokens would not do. */
  predicate GroupOk(lines: seq<Ids>, z: Sizes, p: Piece)
    requires p.Group?
  {
    && p.first <= p.last < |lines| && p.ids != []
    && p.ids == Concat(lines[p.first..p.last + 1])
    && (|p.ids| <= z.max || |p.ids| <= z.target)
    && (var n := NextLine(lines, p.last + 1); n == |lines| || Refuses(z, |p.ids|, lines[n]))
  }

  predicate PartOk(lines: seq<Ids>, z: Sizes, p: Piece)
    requires p.Part?
  {
    p.first < |lines| && |lines[p.first]| > z.max && 1 <= |p.ids| <= z.max
  }

  predicate PieceOk(lines: seq<Ids>, z: Sizes, p: Piece) {
    if p.Group? then GroupOk(lines, z, p) else PartOk(lines, z, p)
  }

  /** Line ranges follow each other; only parts of one line share it. */
  predicate Precedes(p: Piece, q: Piece) {
    Last(p) < q.first || (p.Part? && q.Part? && p.first == q.first)
  }

  predicate PiecesOk(lines: seq<Ids>, z: Sizes, pieces: seq<Piece>) {
    && (forall k | 0 <= k < |pieces| :: PieceOk(lines, z, pieces[k]))
    && (forall k | 0 < k < |pieces| :: Precedes(pieces[k - 1], pieces[k]))
  }

  /** The text of the pieces that are not blank, with one-based line numbers. */
  datatype Atom = Atom(first: nat, last: nat, text: string)

  /** The decoder and the blank test stand outside the model. */
  datatype Decoder = Decoder(decode: Ids -> string, blank: string -> bool)

  function AtomsOf(d: Decoder, pieces: seq<Piece>): seq<Atom> {
    if pieces == [] then []
    else
      WithAtom(d, AtomsOf(d, pieces[..|pieces| - 1]), pieces[|pieces| - 1])
  }

  /** A piece is entered unless its text is blank. */
  function WithAtom(d: Decoder, atoms: seq<Atom>, p: Piece): seq<Atom> {
    var text := d.decode(p.ids);
    if d.blank(text) then atoms else atoms + [Atom(p.first + 1, Last(p) + 1, text)]
  }

  lemma AtomsOne(d: Decoder, pieces: seq<Piece>, p: Piece)
    ensures AtomsOf(d, pieces + [p]) == WithAtom(d, AtomsOf(d, pieces), p)
  {
    assert (pieces + [p])[..|pieces|] == pieces;
  }

  // --- The loop ------------------------------------------------------------------------------------------

  /** The lines collected since the last flush; no tokens, no lines. */
  datatype Current = Current(start: nat, end: nat, ids: Ids)

  ghost predicate CurrentOk(lines: seq<Ids>, z: Sizes, i: nat, c: Current)
    requires i <= |lines|
  {
    c.ids == [] || (
      && c.start <= c.end < i && c.ids == Concat(lines[c.start..c.end + 1])
      && (|c.ids| <= z.max || |c.ids| <= z.target)
      && (forall m | c.end < m < i :: lines[m] == []))
  }

  ghost predicate Behind(pieces: seq<Piece>, i: nat) {
    pieces != [] ==> Last(pieces[|pieces| - 1]) < i
  }

  ghost predicate Going(lines: seq<Ids>, z: Sizes, i: nat, pieces: seq<Piece>, c: Current)
    requires i <= |lines|
  {
    && PiecesOk(lines, z, pieces) && CurrentOk(lines, z, i, c)
    && Joined(Concat(IdsOf(pieces)), c.ids) == Concat(lines[..i])
    && Behind(pieces, if c.ids == [] then i else c.start)
  }

  lemma PieceMore(lines: seq<Ids>, z: Sizes, pieces: seq<Piece>, p: Piece)
    requires PiecesOk(lines, z, pieces) && PieceOk(lines, z, p)
    requires pieces != [] ==> Precedes(pieces[|pieces| - 1], p)
    ensures PiecesOk(lines, z, pieces + [p]) && Concat(IdsOf(pieces + [p])) == Concat(IdsOf(pieces)) + p.ids
  {
    var all := pieces + [p];
    forall k | 0 < k < |all|
      ensures Precedes(all[k - 1], all[k])
    {
      assert k < |pieces| ==> Precedes(pieces[k - 1], pieces[k]);
    }
    assert IdsOf(all) == IdsOf(pieces) + [p.ids];
    ConcatOne(IdsOf(pieces), p.ids);
  }

  /** Closing the current group when the next line, if any, would not fit. */
  lemma FlushKeeps(lines: seq<Ids>, z: Sizes, i: nat, pieces: seq<Piece>, c: Current)
    requires i <= |lines| && Going(lines, z, i, pieces, c) && c.ids != []
    requires i == |lines| || |c.ids| >= z.target || (lines[i] != [] && Refuses(z, |c.ids|, lines[i]))
    ensures Going(lines, z, i, pieces + [Group(c.start, c.end, c.ids)], Current(0, 0, []))
  {
    var p := Group(c.start, c.end, c.ids);
    var n := NextLine(lines, c.end + 1);
    assert n >= i;
    PieceMore(lines, z, pieces, p);
  }

  lemma LinesStep(lines: seq<Ids>, i: nat)
    requires i < |lines|
    ensures Concat(lines[..i + 1]) == Joined(Concat(lines[..i]), lines[i])
  {
    assert lines[..i + 1] == lines[..i] + [lines[i]];
    ConcatOne(lines[..i], lines[i]);
  }

  lemma SkipKeeps(lines: seq<Ids>, z: Sizes, i: nat, pieces: seq<Piece>, c: Current)
    requires i < |lines| && Going(lines, z, i, pieces, c) && lines[i] == []
    ensures Going(lines, z, i + 1, pieces, c)
  {
    LinesStep(lines, i);
  }

  function Taken(lines: seq<Ids>, i: nat, c: Current): Current
    requires i < |lines|
  {
    Current(if c.ids == [] then i else c.start, i, c.ids + lines[i])
  }

  lemma TakenOk(lines: seq<Ids>, z: Sizes, i: nat, c: Current)
    requires i < |lines| && CurrentOk(lines, z, i, c) && lines[i] != []
    requires if c.ids == [] then |lines[i]| <= z.max else |c.ids| + |lines[i]| <= z.target
    ensures CurrentOk(lines, z, i + 1, Taken(lines, i, c))
  {
    if c.ids == [] {
      assert lines[i..i + 1] == [] + [lines[i]];
      ConcatOne([], lines[i]);
    } else {
      GapEmpty(lines, c.start, c.end + 1, i);
      assert lines[c.start..i + 1] == lines[c.start..i] + [lines[i]];
      ConcatOne(lines[c.start..i], lines[i]);
    }
  }

  /** Taking a line into the current group. */
  lemma TakeKeeps(lines: seq<Ids>, z: Sizes, i: nat, pieces: seq<Piece>, c: Current)
    requires i < |lines| && Going(lines, z, i, pieces, c) && lines[i] != []
    requires if c.ids == [] then |lines[i]| <= z.max else |c.ids| + |lines[i]| <= z.target
    ensures Going(lines, z, i + 1, pieces, Taken(lines, i, c))
  {
    LinesStep(lines, i);
    TakenOk(lines, z, i, c);
    JoinedAll(Concat(IdsOf(pieces)), c.ids, lines[i]);
  }

  lemma JoinedAll(a: Ids, b: Ids, c: Ids)
    requires c != []
    ensures Joined(a, b) + c == Joined(a, b + c)
  {
  }

  lemma {:induction false} GapEmpty(lines: seq<Ids>, a: nat, b: nat, i: nat)
    requires a <= b <= i <= |lines| && forall m | b <= m < i :: lines[m] == []
    ensures Concat(lines[a..i]) == Concat(lines[a..b])
  {
    if b < i {
      GapEmpty(lines, a, b, i - 1);
      assert lines[a..i] == lines[a..i - 1] + [lines[i - 1]];
      ConcatOne(lines[a..i - 1], lines[i - 1]);
    }
  }

  /** The pieces so far: those of earlier lines, then parts of line `i` that hold `done`. */
  ghost predicate Parting(lines: seq<Ids>, z: Sizes, i: nat, before: Ids, pieces: seq<Piece>, done: Ids) {
    && PiecesOk(lines, z, pieces) && Concat(IdsOf(pieces)) == Joined(before, done)
    && (pieces != [] ==> var p := pieces[|pieces| - 1]; Last(p) < i || (p.Part? && p.first == i))
  }

  lemma PartStep(lines: seq<Ids>, z: Sizes, i: nat, before: Ids, pieces: seq<Piece>, done: Ids, part: Ids)
    requires i < |lines| && |lines[i]| > z.max && 1 <= |part| <= z.max && Parting(lines, z, i, before, pieces, done)
    ensures Parting(lines, z, i, before, pieces + [Part(i, part)], done + part)
  {
    PieceMore(lines, z, pieces, Part(i, part));
    JoinedAll(before, done, part);
  }

  /** The parts of one long line, entered one after the other. */
  method AddParts(d: Decoder, ghost lines: seq<Ids>, z: Sizes, i: nat, ids: Ids, atoms: seq<Atom>, pieces: seq<Piece>)
      returns (atoms': seq<Atom>, pieces': seq<Piece>)
    requires i < |lines| && ids == lines[i] && |ids| > z.max >= 1
    requires PiecesOk(lines, z, pieces) && Behind(pieces, i) && atoms == AtomsOf(d, pieces)
    ensures Parting(lines, z, i, Concat(IdsOf(pieces)), pieces', ids) && atoms' == AtomsOf(d, pieces')
  {
    atoms', pieces' := atoms, pieces;
    var parts := SplitLong(ids, z.max);
    ghost var before := Concat(IdsOf(pieces));
    assert Concat(parts) == ids by {
      SplitConserves(ids, z.max);
    }
    for k := 0 to |parts|
      invariant Parting(lines, z, i, before, pieces', Concat(parts[..k])) && atoms' == AtomsOf(d, pieces')
    {
      var p := Part(i, parts[k]);
      PartStep(lines, z, i, before, pieces', Concat(parts[..k]), parts[k]);
      AtomsOne(d, pieces', p);
      LinesStep(parts, k);
      atoms' := Emit(d, atoms', p);
      pieces' := pieces' + [p];
    }
    assert parts[..|parts|] == parts;
  }

  method Emit(d: Decoder, atoms: seq<Atom>, p: Piece) returns (atoms': seq<Atom>)
    ensures atoms' == WithAtom(d, atoms, p)
  {
    atoms' := atoms;
    var text := d.decode(p.ids);
    if !d.blank(text) {
      atoms' := atoms' + [Atom(p.first + 1, Last(p) + 1, text)];
    }
  }

  /** `flush`. */
  method Flush(d: Decoder, ghost lines: seq<Ids>, ghost z: Sizes, ghost i: nat, c: Current, atoms: seq<Atom>, pieces: seq<Piece>)
      returns (atoms': seq<Atom>, pieces': seq<Piece>, c': Current)
    requires i <= |lines| && Going(lines, z, i, pieces, c) && atoms == AtomsOf(d, pieces)
    requires c.ids == [] || i == |lines| || |c.ids| >= z.target || (lines[i] != [] && Refuses(z, |c.ids|, lines[i]))
    ensures Going(lines, z, i, pieces', c') && atoms' == AtomsOf(d, pieces') && c'.ids == []
  {
    c' := Current(0, 0, []);
    if c.ids == [] {
      return atoms, pieces, c';
    }
    var p := Group(c.start, c.end, c.ids);
    FlushKeeps(lines, z, i, pieces, c);
    AtomsOne(d, pieces, p);
    atoms' := Emit(d, atoms, p);
    pieces' := pieces + [p];
  }

  lemma PartedKeeps(lines: seq<Ids>, z: Sizes, i: nat, pieces: seq<Piece>, pieces': seq<Piece>, c: Current)
    requires i < |lines| && Going(lines, z, i, pieces, c) && c.ids == []
    requires Parting(lines, z, i, Concat(IdsOf(pieces)), pieces', lines[i])
    ensures Going(lines, z, i + 1, pieces', c)
  {
    LinesStep(lines, i);
  }

  /** A line over the maximum: the group before it ends, and its parts stand alone. */
  method AddLong(d: Decoder, lines: seq<Ids>, z: Sizes, i: nat, c: Current, atoms: seq<Atom>, pieces: seq<Piece>)
      returns (atoms': seq<Atom>, pieces': seq<Piece>, c': Current)
    requires i < |lines| && |lines[i]| > z.max >= 1 && Going(lines, z, i, pieces, c) && atoms == AtomsOf(d, pieces)
    ensures Going(lines, z, i + 1, pieces', c') && atoms' == AtomsOf(d, pieces')
  {
    atoms', pieces', c' := Flush(d, lines, z, i, c, atoms, pieces);
    var flushed := pieces';
    atoms', pieces' := AddParts(d, lines, z, i, lines[i], atoms', pieces');
    PartedKeeps(lines, z, i, flushed, pieces', c');
  }

  /** A line that may join the group before it. */
  method AddShort(d: Decoder, lines: seq<Ids>, z: Sizes, i: nat, c: Current, atoms: seq<Atom>, pieces: seq<Piece>)
      returns (atoms': seq<Atom>, pieces': seq<Piece>, c': Current)
    requires i < |lines| && 0 < |lines[i]| <= z.max && Going(lines, z, i, pieces, c) && atoms == AtomsOf(d, pieces)
    ensures Going(lines, z, i + 1, pieces', c') && atoms' == AtomsOf(d, pieces')
  {
    atoms', pieces', c' := atoms, pieces, c;
    if c.ids != [] && |c.ids| + |lines[i]| > z.target {
      atoms', pieces', c' := Flush(d, lines, z, i, c, atoms, pieces);
    }
    TakeKeeps(lines, z, i, pieces', c');
    c' := Taken(lines, i, c');
    if |c'.ids| >= z.target {
      atoms', pieces', c' := Flush(d, lines, z, i + 1, c', atoms', pieces');
    }
  }

  /** One pass of the line loop. */
  method AddLine(d: Decoder, lines: seq<Ids>, z: Sizes, i: nat, c: Current, atoms: seq<Atom>, pieces: seq<Piece>)
      returns (atoms': seq<Atom>, pieces': seq<Piece>, c': Current)
    requires i < |lines| && z.max >= 1 && Going(lines, z, i, pieces, c) && atoms == AtomsOf(d, pieces)
    ensures Going(lines, z, i + 1, pieces', c') && atoms' == AtomsOf(d, pieces')
  {
    if lines[i] == [] {
      SkipKeeps(lines, z, i, pieces, c);
      return atoms, pieces, c;
    }
    if |lines[i]| > z.max {
      atoms', pieces', c' := AddLong(d, lines, z, i, c, atoms, pieces);
    } else {
      atoms', pieces', c' := AddShort(d, lines, z, i, c, atoms, pieces);
    }
  }

  /** `atomize_text` for a positive maximum: the pieces carry all tokens in order, over ordered line
      ranges, within the sizes. */
  method Atomize(d: Decoder, lines: seq<Ids>, z: Sizes) returns (atoms: seq<Atom>, pieces: seq<Piece>)
    requires z.max >= 1
    ensures atoms == AtomsOf(d, pieces)
    ensures Concat(IdsOf(pieces)) == Concat(lines)
    ensures PiecesOk(lines, z, pieces)
  {
    atoms, pieces := [], [];
    var c := Current(0, 0, []);
    for i := 0 to |lines|
      invariant Going(lines, z, i, pieces, c) && atoms == AtomsOf(d, pieces)
    {
      atoms, pieces, c := AddLine(d, lines, z, i, c, atoms, pieces);
    }
    atoms, pieces, c := Flush(d, lines, z, |lines|, c, atoms, pieces);
    assert lines[..|lines|] == lines;
  }

  lemma {:induction false} ConcatEmpty(lines: seq<Ids>)
    ensures Concat(lines) == [] <==> forall i | 0 <= i < |lines| :: lines[i] == []
  {
    if lines != [] {
      ConcatEmpty(lines[..|lines| - 1]);
    }
  }

  /** `atomize_text` for every configuration. A maximum of zero raises on the first token, a negative one
      drops every line; tokens are conserved exactly for a positive maximum or an empty document. */
  method AtomizeText(d: Decoder, lines: seq<Ids>, z: Sizes) returns (r: Result<seq<Atom>>, pieces: seq<Piece>)
    ensures r.Raised? <==> z.max == 0 && exists i | 0 <= i < |lines| :: lines[i] != []
    ensures r.Ok? ==> r.value == AtomsOf(d, pieces) && PiecesOk(lines, z, pieces)
    ensures r.Ok? ==> (Concat(IdsOf(pieces)) == Concat(lines) <==> z.max >= 1 || forall i | 0 <= i < |lines| :: lines[i] == [])
  {
    pieces := [];
    ConcatEmpty(lines);
    if z.max >= 1 {
      var atoms;
      atoms, pieces := Atomize(d, lines, z);
      return Ok(atoms), pieces;
    }
    for i := 0 to |lines|
      invariant z.max == 0 ==> forall j | 0 <= j < i :: lines[j] == []
    {
      if lines[i] != [] && z.max == 0 {
        return Raised, [];
      }
    }
    r := Ok([]);
  }

  /** With a target no larger than the maximum, no piece exceeds the maximum. */
  lemma WithinMaximum(lines: seq<Ids>, z: Sizes, pieces: seq<Piece>, k: nat)
    requires PiecesOk(lines, z, pieces) && k < |pieces| && z.target <= z.max
    ensures 1 <= |pieces[k].ids| <= z.max
  {
    assert PieceOk(lines, z, pieces[k]);
  }
}
