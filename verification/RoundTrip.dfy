/** Capture and materialize are inverse: the diff/patch round trip of the remote source. */
module RoundTrip {
  import opened Wrappers
  import opened Names
  import opened Text
  import opened Links
  import opened SourceTree
  import opened Materialize

  /** `m` is what one whole capture of `t` under `root` publishes against `baseline`. */
  predicate Captured(root: Path, t: Tree, baseline: Option<Manifest>, m: Manifest) {
    && ListedByGit(t) && SourcePathsOk(root, t)
    && DescribeTree(root, t) == Some(m.files)
    && m == ManifestOf(m.head, t, m.files, baseline)
  }

  /** What the worker demands of a tree beyond what capture demands. */
  predicate Admissible(t: Tree) {
    PrefixFree(t.Keys) && forall n | n in t && t[n].Link? :: t[n].target != ""
  }

  lemma SafeFromSource(n: Name)
    requires SourceNameOk(n) && "" !in Split(n) && "." !in Split(n)
    ensures SafeName(n)
  {
  }

  lemma CapturedNames(root: Path, t: Tree, baseline: Option<Manifest>, m: Manifest)
    requires Captured(root, t, baseline, m)
    ensures m.files.Keys == t.Keys && "." !in t && forall n | n in t :: SafeName(n)
  {
    SplitPlain(".");
    forall n | n in t ensures SafeName(n) {
      SafeFromSource(n);
    }
  }

  lemma DescribedEntries(root: Path, t: Tree, files: Files)
    requires DescribeTree(root, t) == Some(files)
    ensures forall n | n in t :: n in files && files[n] == EntryOf(t[n])
    ensures forall n | n in t && t[n].Link? :: !Absolute(t[n].target)
  {
    assert forall n | n in t && t[n].Link? :: n in LinksOf(t);
  }

  lemma EntriesValid(t: Tree, files: Files)
    requires t.Keys == files.Keys && forall n | n in t :: files[n] == EntryOf(t[n])
    requires forall n | n in t && t[n].Link? :: !Absolute(t[n].target)
    ensures (forall n | n in files :: ValidEntry(files[n])) <==> forall n | n in t && t[n].Link? :: t[n].target != ""
  {
    forall n | n in t ensures ValidEntry(files[n]) <==> (t[n].Link? ==> t[n].target != "") {
      assert files[n] == EntryOf(t[n]);
    }
  }

  lemma CapturedValid(root: Path, t: Tree, baseline: Option<Manifest>, m: Manifest)
    requires Captured(root, t, baseline, m)
    ensures ValidManifest(m) <==> Admissible(t)
    ensures "." !in m.files
  {
    CapturedNames(root, t, baseline, m);
    DescribedEntries(root, t, m.files);
    EntriesValid(t, m.files);
  }

  lemma MembersCover(root: Path, t: Tree, files: Files, names: seq<Name>)
    requires DescribeTree(root, t) == Some(files) && forall n | n in names :: n in files
    ensures Covers(Members(t, names), names, files)
  {
    forall i | 0 <= i < |names| ensures MemberMatches(Members(t, names)[i], files[names[i]]) {
      assert names[i] in names;
      assert files[names[i]] == EntryOf(t[names[i]]);
    }
  }

  /** A recorded archive digest pins the stored archive to the captured members. */
  lemma ArchivePinned(root: Path, t: Tree, baseline: Option<Manifest>, m: Manifest, st: Storage, path: string)
    requires Captured(root, t, baseline, m)
    ensures ArchiveMatches(st, path, m, ChangedListing(m.files, baseline)) <==>
            path in st && st[path] == Tar(ArchiveOf(t, m.files, baseline))
  {
    MembersCover(root, t, m.files, ChangedListing(m.files, baseline));
  }

  lemma AllChangedWithoutBaseline(files: Files)
    ensures ChangedNames(map[], files) == files.Keys
  {
  }

  /** The stored baseline pair is one whole capture. */
  predicate BaseStored(st: Storage, root: Path, tb: Tree, b: Manifest) {
    && Captured(root, tb, None, b)
    && BASE_MANIFEST_PATH in st && st[BASE_MANIFEST_PATH] == Json(b)
    && BASE_SOURCE_PATH in st && st[BASE_SOURCE_PATH] == Tar(ArchiveOf(tb, b.files, None))
  }

  /** The current archive belongs to the current manifest. */
  predicate ArchiveCurrent(st: Storage, t: Tree, m: Manifest, b: Manifest)
    requires t.Keys == m.files.Keys
  {
    m == b || (SOURCE_PATH in st && st[SOURCE_PATH] == Tar(ArchiveOf(t, m.files, Some(b))))
  }

  /** A published current capture and its baseline. */
  predicate Published(st: Storage, rootB: Path, root: Path, tb: Tree, b: Manifest, t: Tree, m: Manifest) {
    && t.Keys == m.files.Keys && BaseStored(st, rootB, tb, b)
    && MANIFEST_PATH in st && st[MANIFEST_PATH] == Json(m)
    && ((m == b && t == tb) || Captured(root, t, Some(b), m))
  }

  lemma RecordsExactly(st: Storage, rootB: Path, root: Path, tb: Tree, b: Manifest, t: Tree, m: Manifest)
    requires Published(st, rootB, root, tb, b, t, m)
    ensures RecordsAccepted(st, Sha256(Json(m))) <==> Admissible(tb) && Admissible(t)
    ensures "." !in m.files
  {
    CapturedValid(rootB, tb, None, b);
    if m != b {
      CapturedValid(root, t, Some(b), m);
    }
  }

  lemma ArchivesExactly(st: Storage, rootB: Path, root: Path, tb: Tree, b: Manifest, t: Tree, m: Manifest)
    requires Published(st, rootB, root, tb, b, t, m)
    ensures ArchivesAccepted(st, m, b) <==> ArchiveCurrent(st, t, m, b)
  {
    AllChangedWithoutBaseline(b.files);
    ArchivePinned(rootB, tb, None, b, st, BASE_SOURCE_PATH);
    ListingIn(b.files.Keys);
    ListingIn(ChangedNames(b.files, m.files));
    if m != b {
      ArchivePinned(root, t, Some(b), m, st, SOURCE_PATH);
    }
  }

  /** Acceptance of a published baseline and delta, exactly: both trees are admissible, no link of
      the current tree leaves the worker's root, and the archive is the one its manifest names. */
  lemma AcceptedExactly(st: Storage, rootB: Path, root: Path, worker: Path,
                        tb: Tree, b: Manifest, t: Tree, m: Manifest)
    requires Published(st, rootB, root, tb, b, t, m)
    ensures Acceptable(st, Sha256(Json(m)), worker) <==>
      && Admissible(tb) && Admissible(t) && LinksInside(worker, m.files) && ArchiveCurrent(st, t, m, b)
  {
    RecordsExactly(st, rootB, root, tb, b, t, m);
    ArchivesExactly(st, rootB, root, tb, b, t, m);
  }

  predicate Capturable(root: Path, s: Snapshot) {
    && ListedByGit(s.tree) && SourcePathsOk(root, s.tree) && DescribeTree(root, s.tree).Some?
  }

  /** Capture of a repository that does not change meanwhile always succeeds. */
  method CaptureStill(root: Path, s: Snapshot, baseline: Option<Manifest>)
    returns (m: Manifest, archive: seq<Member>)
    requires Capturable(root, s)
    ensures Captured(root, s.tree, baseline, m) && archive == ArchiveOf(s.tree, m.files, baseline)
  {
    var streams := map n | n in s.tree && s.tree[n].File? :: s.tree[n].bytes;
    var files := DescribeTree(root, s.tree).value;
    forall n | n in ChangedListing(files, baseline) ensures StreamAgrees(n, s.tree[n], streams) {
      assert n in files;
    }
    var captured := Capture(root, s, streams, s, baseline);
    m, archive := captured.value.0, captured.value.1;
  }

  /** The round trip as one run: capture the baseline tree, capture the current tree as a delta,
      store the four objects and materialize. It succeeds exactly on admissible trees and gives
      back the current tree, writing each of its regular files once and nothing else. */
  method PublishAndMaterialize(root: Path, worker: Path, base: Snapshot, current: Snapshot)
    returns (r: Result<Manifest>, fs: Tree, log: seq<Name>)
    requires Capturable(root, base) && Capturable(root, current)
    ensures r.Ok? <==> Admissible(base.tree) && Admissible(current.tree)
                       && LinksInside(worker, DescribeTree(root, current.tree).value)
    ensures r.Ok? ==> fs == current.tree
    ensures r.Ok? ==> Distinct(log) && Elements(log) == set n | n in fs && fs[n].File?
  {
    var b, baseArchive := CaptureStill(root, base, None);
    var m, archive := CaptureStill(root, current, Some(b));
    var st: Storage := map[BASE_SOURCE_PATH := Tar(baseArchive), BASE_MANIFEST_PATH := Json(b),
                           SOURCE_PATH := Tar(archive), MANIFEST_PATH := Json(m)];
    AcceptedExactly(st, root, root, worker, base.tree, b, current.tree, m);
    r, fs, log := Materialize.Materialize(st, Sha256(Json(m)), worker);
    if r.Ok? {
      SameTree(root, worker, current.tree, fs, m.files);
    }
  }

  lemma SameTree(root: Path, worker: Path, t: Tree, fs: Tree, files: Files)
    requires DescribeTree(root, t) == Some(files) && DescribeTree(worker, fs) == Some(files)
    ensures fs == t
    ensures RegularNames(files) == (set n | n in fs && fs[n].File?)
  {
    DescribeInjective(root, worker, t, fs);
    forall n | n in fs ensures fs[n].File? <==> files[n].FileEntry? {
      assert files[n] == EntryOf(t[n]);
    }
  }

  /** A published source is acceptable to workers whatever their directory exactly when, besides,
      no link ever steps out of the tree. */
  lemma AcceptedEverywhere(st: Storage, rootB: Path, root: Path, tb: Tree, b: Manifest, t: Tree, m: Manifest)
    requires Published(st, rootB, root, tb, b, t, m)
    ensures (forall worker :: Acceptable(st, Sha256(Json(m)), worker)) <==>
      Admissible(tb) && Admissible(t) && Contained(LinksOf(t)) && ArchiveCurrent(st, t, m, b)
  {
    forall worker: Path ensures Acceptable(st, Sha256(Json(m)), worker) <==>
        Admissible(tb) && Admissible(t) && LinksInside(worker, m.files) && ArchiveCurrent(st, t, m, b)
    {
      AcceptedExactly(st, rootB, root, worker, tb, b, t, m);
    }
    SameLinks(if m == b && t == tb then rootB else root, t, m.files);
    InsideEverywhere(m.files);
    if !(Admissible(tb) && Admissible(t) && ArchiveCurrent(st, t, m, b)) {
      assert !Acceptable(st, Sha256(Json(m)), []);
    }
  }

  lemma InsideEverywhere(files: Files)
    ensures (forall worker :: LinksInside(worker, files)) <==> Contained(LinkTargets(files))
  {
    PortableExactly(LinkTargets(files));
    forall worker: Path
      ensures LinksInside(worker, files) <==> LinkTargets(files).Keys <= Leading(worker, LinkTargets(files))
    {
    }
  }

  lemma SameLinks(root: Path, t: Tree, files: Files)
    requires DescribeTree(root, t) == Some(files)
    ensures LinksOf(t) == LinkTargets(files)
  {
    forall n | n in t ensures t[n].Link? <==> files[n].LinkEntry? {
      assert files[n] == EntryOf(t[n]);
    }
  }

  predicate Plain(c: string) {
    '/' !in c && c != "" && c != "." && c != ".."
  }

  /** The target that leaves a directory and comes back to `x` in its neighbour `d`. */
  function Detour(d: string, x: string): string {
    ".." + "/" + (d + "/" + x)
  }

  lemma DetourSteps(d: string, name: Name, x: string)
    requires Plain(d) && Plain(name) && Plain(x)
    ensures !Absolute(Detour(d, x)) && Detour(d, x) != "" && Split(Detour(d, x)) == ["..", d, x]
    ensures Route(map[name := Detour(d, x)], name) == ["..", d, x]
  {
    SplitPlain(name);
    SplitPlain(x);
    SplitPart(d, x);
    SplitPart("..", d + "/" + x);
    assert [".."] + ([d] + [x]) == ["..", d, x];
  }

  lemma DetourLeads(d: string, e: string, name: Name, x: string)
    requires Plain(d) && Plain(name) && Plain(x)
    ensures name in Leading([e], map[name := Detour(d, x)]) <==> e == d
  {
    DetourSteps(d, name, x);
    var links: Targets := map[name := Detour(d, x)];
    ComesBack(e, links, d, x, map[]);
    if e == d {
      AtHome(d, links, x, name, Detour(d, x));
    }
    assert [d, x][0] == d;
  }

  /** Capture accepts a link that leaves the repository directory `d` and re-enters it by its own
      name; the worker's copy lives in a directory `e` and refuses it. */
  lemma PortabilityGap(d: string, e: string, name: Name, x: string)
    requires Plain(d) && Plain(e) && Plain(name) && Plain(x) && d != e
    ensures
      var t: Tree := map[name := Link(Detour(d, x))];
      && DescribeTree([d], t) == Some(Entries(t)) && Admissible(t)
      && !LinksInside([e], Entries(t)) && !Contained(LinksOf(t))
  {
    var t: Tree := map[name := Link(Detour(d, x))];
    var links: Targets := map[name := Detour(d, x)];
    assert LinksOf(t) == links && LinkTargets(Entries(t)) == links;
    DetourLeads(d, d, name, x);
    DetourLeads(d, e, name, x);
    DetourSteps(d, name, x);
    assert links.Keys == {name};
    PortableExactly(links);
    assert !(links.Keys <= Leading([e], links));
  }

  /** Up from a directory at the top, and down again to `d`. */
  lemma ComesBack(c: string, links: Targets, d: string, x: string, seen: Memo)
    requires Plain(d) && Plain(x)
    ensures Follow([c], links, [c], ["..", d, x], seen) == Follow([c], links, [d], [x], seen)
    ensures c != d ==> Follow([c], links, [c], ["..", d, x], seen).path == [d, x]
  {
    assert ["..", d, x][1..] == [d, x] && [d, x][1..] == [x] && [x][1..] == [];
    assert Up([c]) == [] && [] + [d] == [d] && [d] + [x] == [d, x];
    assert !([c] < [d]);
    assert Follow([c], links, [c], ["..", d, x], seen) == Follow([c], links, [], [d, x], seen);
    assert [d, x][0] != c ==> !([c] < [d, x]);
  }

  /** The walk ends at `x` of the tree itself, also when that is the link it started from. */
  lemma AtHome(d: string, links: Targets, x: string, name: Name, target: string)
    requires Plain(d) && Plain(x) && links == map[name := target]
    requires Split(target) == ["..", d, x] && !Absolute(target)
    ensures Follow([d], links, [d], [x], map[]).path == [d, x]
  {
    assert [x][1..] == [] && [d] + [x] == [d, x] && [d, x][1..] == [x];
    if x == name {
      ComesBack(d, links, d, x, map[x := None]);
      assert LinkAt([d], links, [d, x]) == Some(x);
      assert Follow([d], links, [d], [x], map[x := None]).path == [d, x];
    }
  }
}
