/** Source trees, their manifests and the capture of one tree as a baseline or as a delta
    (`scripts/modal_source_sync.py`).

    SHA-256 is a free constructor over the blob it digests, so it is injective and nothing
    else is known of it. A gzip'd tar is its ordered member list; an encoded manifest is the
    manifest itself, because `json.dumps(sort_keys=True)` is canonical. */
module SourceTree {
  import opened Wrappers
  import opened Names
  import opened Text
  import opened Links

  type Bytes = seq<bv8>

  datatype Node = File(executable: bool, bytes: Bytes) | Link(target: string)

  /** A working tree: what `git ls-files` lists, with what the file system holds there. */
  type Tree = map<Name, Node>

  datatype Digest = Sha256(blob: Blob)
  datatype Blob = Raw(bytes: Bytes) | Tar(members: seq<Member>) | Json(manifest: Manifest)
  datatype Member = FileMember(name: Name, mode: nat, bytes: Bytes) | LinkMember(name: Name, target: string)
  datatype Entry = FileEntry(mode: nat, size: nat, sha256: Digest) | LinkEntry(target: string)
  type Files = map<Name, Entry>
  datatype BaseRef = BaseRef(archiveSha256: Digest, manifestSha256: Digest)
  datatype Manifest = Manifest(
    format: string, head: string, files: Files, changed: seq<Name>, deleted: seq<Name>,
    archiveSha256: Digest, sourceArchive: string, base: Option<BaseRef>)

  const FORMAT := "brassclaw-modal-source/2"
  const SOURCE_PATH := "/source/repository.tar.gz"
  const MANIFEST_PATH := "/source/manifest.json"
  const BASE_SOURCE_PATH := "/source/base.tar.gz"
  const BASE_MANIFEST_PATH := "/source/base-manifest.json"
  const PRIVATE_NAMES := {"LOCAL_TEST_ENV.md", ".env", ".modal.toml"}

  // --- Paths ---------------------------------------------------------------------

  /** One of `PurePosixPath(n).parents`; the last of them is `.`. */
  predicate IsParent(p: Name, n: Name) {
    (|p| < |n| && n[..|p|] == p && n[|p|] == '/') || (p == "." && n != ".")
  }

  /** The checks of `source_paths` on one listed name. */
  predicate SourceNameOk(name: Name) {
    var parts := Split(name);
    && (name == "" || name[0] != '/')
    && ".." !in parts && ".git" !in parts && parts[|parts| - 1] !in PRIVATE_NAMES
  }

  function LinksOf(t: Tree): Targets {
    map n | n in t && t[n].Link? :: t[n].target
  }

  /** All that `source_paths` asks: good names, and directories that do not lead out of the tree. */
  predicate SourcePathsOk(root: Path, t: Tree) {
    (forall n | n in t :: SourceNameOk(n)) && t.Keys <= Housed(root, LinksOf(t), t.Keys)
  }

  /** Git prints canonical relative names: no empty and no `.` component. */
  predicate ListedByGit(t: Tree) {
    forall n | n in t :: "" !in Split(n) && "." !in Split(n)
  }

  // --- describe ------------------------------------------------------------------

  function EntryOf(node: Node): Entry {
    match node
    case File(executable, bytes) => FileEntry(if executable then 0x1ed else 0x1a4, |bytes|, Sha256(Raw(bytes)))
    case Link(target) => LinkEntry(target)
  }

  function Entries(t: Tree): Files {
    map n | n in t :: EntryOf(t[n])
  }

  /** `describe` of every name; an absolute link and one that leads out of the tree raise. */
  function DescribeTree(root: Path, t: Tree): Option<Files> {
    var links := LinksOf(t);
    if (forall n | n in links :: !Absolute(links[n])) && links.Keys <= Leading(root, links) then Some(Entries(t))
    else None
  }

  /** A manifest's `files` determine the tree they describe, whatever root it was read under. */
  lemma DescribeInjective(root: Path, root': Path, t: Tree, t': Tree)
    requires DescribeTree(root, t).Some? && DescribeTree(root, t) == DescribeTree(root', t')
    ensures t == t'
  {
    EntriesInjective(t, t');
  }

  lemma EntriesInjective(t: Tree, t': Tree)
    requires Entries(t) == Entries(t')
    ensures t == t'
  {
    var files := Entries(t);
    assert t.Keys == files.Keys == t'.Keys;
    forall n | n in t ensures t[n] == t'[n] {
      assert files[n] == EntryOf(t[n]) == EntryOf(t'[n]);
    }
  }

  // --- capture -------------------------------------------------------------------

  function EntryIn(files: Files, n: Name): Option<Entry> {
    if n in files then Some(files[n]) else None
  }

  function BaselineFiles(baseline: Option<Manifest>): Files {
    match baseline case None => map[] case Some(b) => b.files
  }

  function ChangedNames(previous: Files, files: Files): set<Name> {
    set n | n in files && EntryIn(previous, n) != Some(files[n])
  }

  function MemberOf(name: Name, node: Node): Member {
    match node
    case File(x, bytes) => FileMember(name, if x then 0x1ed else 0x1a4, bytes)
    case Link(target) => LinkMember(name, target)
  }

  /** The archive that holds exactly `names` of `t`, in that order. */
  function Members(t: Tree, names: seq<Name>): (r: seq<Member>)
    requires forall n | n in names :: n in t
    ensures |r| == |names|
    ensures forall i | 0 <= i < |r| :: r[i] == MemberOf(names[i], t[names[i]])
  {
    seq(|names|, i requires 0 <= i < |names| => MemberOf(names[i], t[names[i]]))
  }

  /** What an undisturbed capture of `t` against `baseline` publishes. */
  function ArchiveOf(t: Tree, files: Files, baseline: Option<Manifest>): seq<Member>
    requires t.Keys == files.Keys
  {
    Members(t, ChangedListing(files, baseline))
  }

  function ChangedListing(files: Files, baseline: Option<Manifest>): (r: seq<Name>)
    ensures forall n | n in r :: n in files
  {
    assert forall n | n in Listing(ChangedNames(BaselineFiles(baseline), files)) ::
        n in Elements(Listing(ChangedNames(BaselineFiles(baseline), files)));
    Listing(ChangedNames(BaselineFiles(baseline), files))
  }

  function BaseRefOf(baseline: Option<Manifest>): Option<BaseRef> {
    match baseline
    case None => None
    case Some(b) => Some(BaseRef(b.archiveSha256, Sha256(Json(b))))
  }

  function ManifestOf(head: string, t: Tree, files: Files, baseline: Option<Manifest>): Manifest
    requires t.Keys == files.Keys
  {
    Manifest(FORMAT, head, files, ChangedListing(files, baseline),
             Listing(BaselineFiles(baseline).Keys - files.Keys),
             Sha256(Tar(ArchiveOf(t, files, baseline))),
             if baseline.None? then BASE_SOURCE_PATH else SOURCE_PATH, BaseRefOf(baseline))
  }

  /** The repository as it looks at one instant: its commit and its working tree. */
  datatype Snapshot = Snapshot(head: string, tree: Tree)

  function VerifySource(root: Path, now: Snapshot, head: string, files: Files): bool {
    && now.head == head
    && SourcePathsOk(root, now.tree)
    && DescribeTree(root, now.tree) == Some(files)
  }

  /** The bytes read for `n` while archiving start with the described ones. */
  predicate StreamAgrees(n: Name, node: Node, streams: map<Name, Bytes>) {
    node.File? ==> n in streams && |node.bytes| <= |streams[n]| && streams[n][..|node.bytes|] == node.bytes
  }

  predicate Streamed(n: Name, entry: Entry, streams: map<Name, Bytes>) {
    entry.FileEntry? ==> n in streams && entry.size <= |streams[n]|
  }

  /** A tar member takes exactly `size` bytes of the open file. */
  function Archived(name: Name, entry: Entry, streams: map<Name, Bytes>): Member
    requires Streamed(name, entry, streams)
  {
    match entry
    case LinkEntry(target) => LinkMember(name, target)
    case FileEntry(mode, size, _) => FileMember(name, mode, streams[name][..size])
  }

  method WriteArchive(files: Files, names: seq<Name>, streams: map<Name, Bytes>) returns (r: Result<seq<Member>>)
    requires forall n | n in names :: n in files
    ensures r.Ok? <==> forall i | 0 <= i < |names| :: Streamed(names[i], files[names[i]], streams)
    ensures r.Ok? ==> |r.value| == |names|
    ensures r.Ok? ==> forall i | 0 <= i < |names| :: r.value[i] == Archived(names[i], files[names[i]], streams)
  {
    var archive: seq<Member> := [];
    for k := 0 to |names|
      invariant |archive| == k
      invariant forall i | 0 <= i < k :: Streamed(names[i], files[names[i]], streams)
      invariant forall i | 0 <= i < k :: archive[i] == Archived(names[i], files[names[i]], streams)
    {
      if !Streamed(names[k], files[names[k]], streams) {
        return Raised;
      }
      archive := archive + [Archived(names[k], files[names[k]], streams)];
    }
    r := Ok(archive);
  }

  /** The read-back of the finished archive. */
  method CheckArchive(files: Files, archive: seq<Member>) returns (ok: bool)
    requires forall m | m in archive :: m.name in files && (m.FileMember? <==> files[m.name].FileEntry?)
    ensures ok <==> forall m | m in archive && m.FileMember? :: Sha256(Raw(m.bytes)) == files[m.name].sha256
  {
    for k := 0 to |archive|
      invariant forall i | 0 <= i < k && archive[i].FileMember? ::
          Sha256(Raw(archive[i].bytes)) == files[archive[i].name].sha256
    {
      if archive[k].FileMember? && Sha256(Raw(archive[k].bytes)) != files[archive[k].name].sha256 {
        return false;
      }
    }
    ok := true;
  }

  /** Read-back succeeds exactly when the streams carried the described bytes, and then the archive
      is the one an undisturbed capture writes. */
  lemma ReadBack(root: Path, t: Tree, files: Files, names: seq<Name>, streams: map<Name, Bytes>, k: nat)
    requires DescribeTree(root, t) == Some(files) && k < |names| && names[k] in files
    requires Streamed(names[k], files[names[k]], streams)
    ensures names[k] in t
    ensures
      var m := Archived(names[k], files[names[k]], streams);
      var good := m.FileMember? ==> Sha256(Raw(m.bytes)) == files[names[k]].sha256;
      && (m.FileMember? <==> files[names[k]].FileEntry?)
      && (good <==> StreamAgrees(names[k], t[names[k]], streams))
      && (good ==> m == MemberOf(names[k], t[names[k]]))
  {
    assert files[names[k]] == EntryOf(t[names[k]]);
  }

  /** Write the archive, then read it back against the described digests. */
  method ArchiveChecked(root: Path, t: Tree, files: Files, names: seq<Name>, streams: map<Name, Bytes>)
    returns (r: Result<seq<Member>>)
    requires DescribeTree(root, t) == Some(files) && forall n | n in names :: n in files
    ensures r.Ok? <==> forall n | n in names :: StreamAgrees(n, t[n], streams)
    ensures r.Ok? ==> r.value == Members(t, names)
  {
    r := WriteArchive(files, names, streams);
    if r.Raised? {
      var i :| 0 <= i < |names| && !Streamed(names[i], files[names[i]], streams);
      assert names[i] in names && names[i] in t;
      assert files[names[i]] == EntryOf(t[names[i]]);
      assert !StreamAgrees(names[i], t[names[i]], streams);
      return;
    }
    forall i | 0 <= i < |names| {
      ReadBack(root, t, files, names, streams, i);
    }
    var ok := CheckArchive(files, r.value);
    if !ok {
      var i :| 0 <= i < |r.value| && r.value[i].FileMember?
               && Sha256(Raw(r.value[i].bytes)) != files[r.value[i].name].sha256;
      assert !StreamAgrees(names[i], t[names[i]], streams);
      return Raised;
    }
    assert forall i | 0 <= i < |names| :: r.value[i] in r.value;
  }

  /** `capture` followed by the fields `sync_source` adds. The working tree may change at any time:
      `before` is what the describe pass sees, `streams` the bytes each open file yields while the
      archive is written, `after` what the closing `verify_source` sees. */
  method Capture(root: Path, before: Snapshot, streams: map<Name, Bytes>, after: Snapshot,
                 baseline: Option<Manifest>)
    returns (r: Result<(Manifest, seq<Member>)>)
    ensures r.Ok? <==>
      && SourcePathsOk(root, before.tree)
      && DescribeTree(root, before.tree).Some?
      && (forall n | n in ChangedListing(DescribeTree(root, before.tree).value, baseline) ::
            StreamAgrees(n, before.tree[n], streams))
      && after == before
    ensures r.Ok? ==>
      var files := DescribeTree(root, before.tree).value;
      r.value == (ManifestOf(before.head, before.tree, files, baseline), ArchiveOf(before.tree, files, baseline))
  {
    if !SourcePathsOk(root, before.tree) || DescribeTree(root, before.tree).None? {
      return Raised;
    }
    var files := DescribeTree(root, before.tree).value;
    var selected := Filter(Listing(files.Keys), ChangedNames(BaselineFiles(baseline), files));
    FilterListing(files.Keys, ChangedNames(BaselineFiles(baseline), files));
    assert selected == ChangedListing(files, baseline);
    var deleted := Listing(BaselineFiles(baseline).Keys - files.Keys);
    var archive := ArchiveChecked(root, before.tree, files, selected, streams);
    if archive.Raised? {
      return Raised;
    }
    if !VerifySource(root, after, before.head, files) {
      return Raised;
    }
    DescribeInjective(root, root, before.tree, after.tree);
    r := Ok((Manifest(FORMAT, before.head, files, selected, deleted, Sha256(Tar(archive.value)),
                      if baseline.None? then BASE_SOURCE_PATH else SOURCE_PATH, BaseRefOf(baseline)),
             archive.value));
  }
}
