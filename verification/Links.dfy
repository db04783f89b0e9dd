/** Following symbolic links: the non-strict `Path.resolve` that `describe` relies on
    (`scripts/modal_source_sync.py`), and when its answer does not depend on where a tree stands. */
module Links {
  import opened Wrappers
  import opened Names
  import opened Text

  /** An absolute directory or file, by its components. */
  type Path = seq<string>

  /** The links of one tree: relative names and what each points to. */
  type Targets = map<Name, string>

  /** What `realpath` remembers: `None` for a link it is still inside of. */
  type Memo = map<Name, Option<Path>>

  datatype Reached = Reached(path: Path, seen: Memo)

  function Up(dir: Path): Path {
    if dir == [] then [] else dir[..|dir| - 1]
  }

  predicate Absolute(target: string) {
    target != "" && target[0] == '/'
  }

  /** The name of `p` in the tree at `root`, when a link stands there. */
  function LinkAt(root: Path, links: Targets, p: Path): Option<Name> {
    if root < p && Join(p[|root|..]) in links then Some(Join(p[|root|..])) else None
  }

  predicate Grown(seen: Memo, seen': Memo) {
    seen.Keys <= seen'.Keys
  }

  /** Links not met yet. */
  function Unmet(links: Targets, seen: Memo): nat {
    |links.Keys - seen.Keys|
  }

  lemma Enter(links: Targets, seen: Memo, n: Name)
    requires n in links && n !in seen
    ensures Unmet(links, seen[n := None]) < Unmet(links, seen)
  {
    Subset(links.Keys - seen[n := None].Keys, links.Keys - seen.Keys - {n});
  }

  lemma Leave(links: Targets, seen: Memo, seen': Memo, n: Name, p: Path)
    requires n in links && n !in seen && Grown(seen[n := None], seen')
    ensures Unmet(links, seen'[n := Some(p)]) < Unmet(links, seen)
    ensures forall s: Memo :: Grown(seen'[n := Some(p)], s) ==> Grown(seen, s)
  {
    Subset(links.Keys - seen'[n := Some(p)].Keys, links.Keys - seen.Keys - {n});
  }

  /** One component of a walk: on to another path, or through a link not met yet. */
  datatype Turn = To(path: Path) | Through(name: Name)

  /** `..` leaves the resolved directory; a link met inside itself is left as it is. Directories
      outside the tree hold no links. */
  function TurnAt(root: Path, links: Targets, dir: Path, c: string, seen: Memo): (r: Turn)
    ensures r.Through? ==> r.name in links && r.name !in seen
  {
    if c == "" || c == "." then To(dir)
    else if c == ".." then To(Up(dir))
    else
      match LinkAt(root, links, dir + [c])
      case None => To(dir + [c])
      case Some(n) => if n in seen then To(seen[n].GetOr(dir + [c])) else Through(n)
  }

  /** Walk `parts` from `dir`; a link is replaced by what its target resolves to. */
  function Follow(root: Path, links: Targets, dir: Path, parts: seq<string>, seen: Memo): (r: Reached)
    ensures Grown(seen, r.seen)
    decreases Unmet(links, seen), |parts|
  {
    if parts == [] then Reached(dir, seen)
    else
      match TurnAt(root, links, dir, parts[0], seen)
      case To(p) => Follow(root, links, p, parts[1..], seen)
      case Through(n) =>
        Enter(links, seen, n);
        var inner := Follow(root, links, if Absolute(links[n]) then [] else dir, Split(links[n]), seen[n := None]);
        Leave(links, seen, inner.seen, n, inner.path);
        Follow(root, links, inner.path, parts[1..], inner.seen[n := Some(inner.path)])
  }

  lemma {:induction false} Subset(a: set<Name>, b: set<Name>)
    requires a <= b
    ensures |a| <= |b|
  {
    if a != {} {
      var x :| x in a;
      Subset(a - {x}, b - {x});
    }
  }

  function Above(name: Name): seq<string> {
    Split(name)[..|Split(name)| - 1]
  }

  /** The walk `describe` makes for the link at `name`. */
  function Route(links: Targets, name: Name): seq<string>
    requires name in links
  {
    Above(name) + Split(links[name])
  }

  /** The links of the tree at `root` that point to something under `root`. */
  function Leading(root: Path, links: Targets): set<Name> {
    set name | name in links && root <= Follow(root, links, root, Route(links, name), map[]).path
  }

  /** The names among `names` whose directory is under `root` once resolved. */
  function Housed(root: Path, links: Targets, names: set<Name>): set<Name> {
    set name | name in names && root <= Follow(root, links, root, Above(name), map[]).path
  }

  // --- Without a root ---------------------------------------------------------------------------

  /** One component inside the tree alone: nothing when it would step out of it. */
  function TurnWithin(links: Targets, rel: Path, c: string, seen: Memo): (r: Option<Turn>)
    ensures r.Some? && r.value.Through? ==> r.value.name in links && r.value.name !in seen
  {
    if c == "" || c == "." then Some(To(rel))
    else if c == ".." then if rel == [] then None else Some(To(Up(rel)))
    else
      var n := Join(rel + [c]);
      if n !in links then Some(To(rel + [c]))
      else if n in seen then Some(To(seen[n].GetOr(rel + [c])))
      else if Absolute(links[n]) then None
      else Some(Through(n))
  }

  /** The same walk inside the tree alone. */
  function Stay(links: Targets, rel: Path, parts: seq<string>, seen: Memo): (r: Option<Reached>)
    ensures r.Some? ==> Grown(seen, r.value.seen)
    decreases Unmet(links, seen), |parts|
  {
    if parts == [] then Some(Reached(rel, seen))
    else
      match TurnWithin(links, rel, parts[0], seen)
      case None => None
      case Some(To(p)) => Stay(links, p, parts[1..], seen)
      case Some(Through(n)) =>
        Enter(links, seen, n);
        match Stay(links, rel, Split(links[n]), seen[n := None])
        case None => None
        case Some(inner) =>
          Leave(links, seen, inner.seen, n, inner.path);
          Stay(links, inner.path, parts[1..], inner.seen[n := Some(inner.path)])
  }

  /** No link ever steps out of the tree, not even to come back. */
  predicate Contained(links: Targets) {
    forall name | name in links :: Stay(links, [], Route(links, name), map[]).Some?
  }

  function Lift(root: Path, seen: Memo): Memo {
    map n | n in seen :: match seen[n] case None => None case Some(p) => Some(root + p)
  }

  lemma LiftSet(root: Path, seen: Memo, n: Name, p: Option<Path>)
    ensures Lift(root, seen[n := p]) == Lift(root, seen)[n := match p case None => None case Some(q) => Some(root + q)]
  {
  }

  /** A component that stays in the tree takes the same turn under every root. */
  lemma TurnLifted(root: Path, links: Targets, rel: Path, c: string, seen: Memo)
    ensures TurnWithin(links, rel, c, seen).Some? ==>
      TurnAt(root, links, root + rel, c, Lift(root, seen)) ==
      match TurnWithin(links, rel, c, seen).value case To(p) => To(root + p) case Through(n) => Through(n)
    ensures TurnWithin(links, rel, c, seen).None? && c != ".." ==>
      var turn := TurnAt(root, links, root + rel, c, Lift(root, seen));
      turn.Through? && Absolute(links[turn.name])
  {
    var p := root + rel + [c];
    assert p == root + (rel + [c]);
    assert p[|root|..] == rel + [c] && root < p;
    if rel != [] {
      assert Up(root + rel) == root + Up(rel);
    }
  }

  /** A walk that stays in the tree goes the same way under every root. */
  lemma {:induction false} StayFollows(root: Path, links: Targets, rel: Path, parts: seq<string>, seen: Memo)
    requires Stay(links, rel, parts, seen).Some?
    ensures
      var r := Stay(links, rel, parts, seen).value;
      Follow(root, links, root + rel, parts, Lift(root, seen)) == Reached(root + r.path, Lift(root, r.seen))
    decreases Unmet(links, seen), |parts|
  {
    if parts != [] {
      TurnLifted(root, links, rel, parts[0], seen);
      match TurnWithin(links, rel, parts[0], seen).value
      case To(p) =>
        StayFollows(root, links, p, parts[1..], seen);
      case Through(n) =>
        Enter(links, seen, n);
        LiftSet(root, seen, n, None);
        StayFollows(root, links, rel, Split(links[n]), seen[n := None]);
        var inner := Stay(links, rel, Split(links[n]), seen[n := None]).value;
        Leave(links, seen, inner.seen, n, inner.path);
        LiftSet(root, inner.seen, n, Some(inner.path));
        StayFollows(root, links, inner.path, parts[1..], inner.seen[n := Some(inner.path)]);
    }
  }

  predicate Avoids(parts: seq<string>, d: string) {
    forall k | 0 <= k < |parts| :: parts[k] != d
  }

  predicate Unnamed(links: Targets, d: string) {
    forall n | n in links :: Avoids(Split(links[n]), d)
  }

  predicate Outside(d: string, p: Path) {
    p == [] || p[0] != d
  }

  /** Once out of a directory that no target names, a walk does not come back. */
  lemma {:induction false} OutsideStays(d: string, links: Targets, dir: Path, parts: seq<string>, seen: Memo)
    requires Outside(d, dir) && Avoids(parts, d)
    ensures Outside(d, Follow([d], links, dir, parts, seen).path)
    decreases |parts|
  {
    if parts != [] {
      var turn := TurnAt([d], links, dir, parts[0], seen);
      assert (dir + [parts[0]])[0] == if dir == [] then parts[0] else dir[0];
      OutsideStays(d, links, turn.path, parts[1..], seen);
    }
  }

  /** A walk that steps out of a tree in such a directory ends outside it. */
  lemma {:induction false} LeavesForGood(d: string, links: Targets, rel: Path, parts: seq<string>, seen: Memo)
    requires Unnamed(links, d) && Avoids(parts, d) && Stay(links, rel, parts, seen).None?
    ensures Outside(d, Follow([d], links, [d] + rel, parts, Lift([d], seen)).path)
    decreases Unmet(links, seen), |parts|, 1
  {
    TurnLifted([d], links, rel, parts[0], seen);
    var turn := TurnAt([d], links, [d] + rel, parts[0], Lift([d], seen));
    if turn.Through? {
      LeavesByLink(d, links, rel, parts, seen, turn.name);
    } else if TurnWithin(links, rel, parts[0], seen).None? {
      OutsideStays(d, links, [], parts[1..], Lift([d], seen));
    } else {
      LeavesForGood(d, links, TurnWithin(links, rel, parts[0], seen).value.path, parts[1..], seen);
    }
  }

  lemma {:induction false} LeavesByLink(d: string, links: Targets, rel: Path, parts: seq<string>, seen: Memo, n: Name)
    requires Unnamed(links, d) && Avoids(parts, d) && Stay(links, rel, parts, seen).None?
    requires parts != [] && TurnAt([d], links, [d] + rel, parts[0], Lift([d], seen)) == Through(n)
    ensures Outside(d, Follow([d], links, [d] + rel, parts, Lift([d], seen)).path)
    decreases Unmet(links, seen), |parts|, 0
  {
    TurnLifted([d], links, rel, parts[0], seen);
    LiftSet([d], seen, n, None);
    Enter(links, seen, n);
    var lifted := Lift([d], seen[n := None]);
    if !Absolute(links[n]) && Stay(links, rel, Split(links[n]), seen[n := None]).Some? {
      StayFollows([d], links, rel, Split(links[n]), seen[n := None]);
      var inner := Stay(links, rel, Split(links[n]), seen[n := None]).value;
      Leave(links, seen, inner.seen, n, inner.path);
      LiftSet([d], inner.seen, n, Some(inner.path));
      LeavesForGood(d, links, inner.path, parts[1..], inner.seen[n := Some(inner.path)]);
    } else {
      var from := if Absolute(links[n]) then [] else [d] + rel;
      if Absolute(links[n]) {
        OutsideStays(d, links, from, Split(links[n]), lifted);
      } else {
        LeavesForGood(d, links, rel, Split(links[n]), seen[n := None]);
      }
      var inner := Follow([d], links, from, Split(links[n]), lifted);
      OutsideStays(d, links, inner.path, parts[1..], inner.seen[n := Some(inner.path)]);
    }
  }

  lemma {:induction false} LongerThanAll(s: set<string>) returns (size: nat)
    ensures forall c | c in s :: |c| < size
  {
    size := 0;
    if s != {} {
      var c :| c in s;
      size := LongerThanAll(s - {c});
      if size <= |c| {
        size := |c| + 1;
      }
    }
  }

  /** Some directory name occurs in no walk of the tree. */
  lemma NameApart(links: Targets) returns (d: string)
    ensures Unnamed(links, d) && forall n | n in links :: Avoids(Route(links, n), d)
  {
    var size := LongerThanAll(set n, c | n in links && c in Route(links, n) :: c);
    d := seq(size, _ => 'd');
    forall n | n in links ensures Avoids(Route(links, n), d) && Avoids(Split(links[n]), d) {
      var steps, own := Route(links, n), Split(links[n]);
      forall k | 0 <= k < |steps| ensures steps[k] != d {
        assert steps[k] in steps;
      }
      forall k | 0 <= k < |own| ensures own[k] != d {
        assert own[k] == steps[|Above(n)| + k];
      }
    }
  }

  lemma ContainedInside(links: Targets, root: Path, name: Name)
    requires Contained(links) && name in links
    ensures name in Leading(root, links)
  {
    StayFollows(root, links, [], Route(links, name), map[]);
    assert Lift(root, map[]) == map[] && root + [] == root;
  }

  /** The links of a tree lead inside it wherever the tree stands, exactly when none of them ever
      steps out of it. */
  lemma PortableExactly(links: Targets)
    ensures (forall root :: links.Keys <= Leading(root, links)) <==> Contained(links)
  {
    if Contained(links) {
      forall root: Path, name | name in links ensures name in Leading(root, links) {
        ContainedInside(links, root, name);
      }
    } else {
      var name :| name in links && Stay(links, [], Route(links, name), map[]).None?;
      var d := NameApart(links);
      LeavesForGood(d, links, [], Route(links, name), map[]);
      assert Lift([d], map[]) == map[] && [d] + [] == [d];
      assert name !in Leading([d], links);
    }
  }
}
