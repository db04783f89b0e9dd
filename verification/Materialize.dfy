/** The build worker's source verifier (`scripts/modal_build_worker.py`): it treats the stored
    archives as untrusted data and writes only the files of the final tree. */
module Materialize {
  import opened Wrappers
  import opened Names
  import opened Text
  import opened Links
  import opened SourceTree

  type Storage = map<string, Blob>

  // --- validate_manifest -----------------------------------------------------------

  /** A canonical relative path; the root itself, `.`, is one. */
  predicate SafeName(n: Name) {
    n == "." || forall c | c in Split(n) :: c != "" && c != "." && c != ".." && c != ".git"
  }

  predicate ValidEntry(e: Entry) {
    match e
    case FileEntry(mode, _, _) => mode == 0x1a4 || mode == 0x1ed
    case LinkEntry(target) => target != "" && target[0] != '/'
  }

  /** No leaf is also a directory on the way to another leaf. */
  predicate PrefixFree(names: set<Name>) {
    forall p, n | p in names && n in names :: !IsParent(p, n)
  }

  predicate ValidManifest(m: Manifest) {
    && m.format == FORMAT
    && (forall n | n in m.files :: SafeName(n) && ValidEntry(m.files[n]))
    && PrefixFree(m.files.Keys)
  }

  // --- What materialize accepts ------------------------------------------------------

  predicate MemberMatches(m: Member, e: Entry) {
    match e
    case LinkEntry(target) => m.LinkMember? && m.target == target
    case FileEntry(mode, size, sha) =>
      m.FileMember? && |m.bytes| == size && m.mode == mode && Sha256(Raw(m.bytes)) == sha
  }

  predicate Covers(members: seq<Member>, names: seq<Name>, files: Files)
    requires forall n | n in names :: n in files
  {
    && |members| == |names|
    && forall i | 0 <= i < |names| :: members[i].name == names[i] && MemberMatches(members[i], files[names[i]])
  }

  predicate ArchiveMatches(st: Storage, path: string, record: Manifest, names: seq<Name>)
    requires forall n | n in names :: n in record.files
  {
    && path in st && Sha256(st[path]) == record.archiveSha256
    && st[path].Tar? && Covers(st[path].members, names, record.files)
  }

  predicate DeltaDeclared(m: Manifest, b: Manifest) {
    && m.base == Some(BaseRef(b.archiveSha256, Sha256(Json(b))))
    && m.changed == Listing(ChangedNames(b.files, m.files))
    && m.deleted == Listing(b.files.Keys - m.files.Keys)
  }

  function LinkTargets(files: Files): Targets {
    map n | n in files && files[n].LinkEntry? :: files[n].target
  }

  predicate LinksInside(root: Path, files: Files) {
    LinkTargets(files).Keys <= Leading(root, LinkTargets(files))
  }

  predicate RecordsAccepted(st: Storage, expected: Digest) {
    && MANIFEST_PATH in st && Sha256(st[MANIFEST_PATH]) == expected && st[MANIFEST_PATH].Json?
    && BASE_MANIFEST_PATH in st && st[BASE_MANIFEST_PATH].Json?
    && var m, b := st[MANIFEST_PATH].manifest, st[BASE_MANIFEST_PATH].manifest;
    && ValidManifest(m) && ValidManifest(b)
    && (m.sourceArchive == BASE_SOURCE_PATH || m.sourceArchive == SOURCE_PATH)
    && (m.sourceArchive == BASE_SOURCE_PATH ==> m == b)
    && (m.sourceArchive == SOURCE_PATH ==> DeltaDeclared(m, b))
  }

  /** The whole acceptance condition, read off the stored blobs alone. */
  predicate Acceptable(st: Storage, expected: Digest, root: Path) {
    && RecordsAccepted(st, expected)
    && var m, b := st[MANIFEST_PATH].manifest, st[BASE_MANIFEST_PATH].manifest;
    ArchivesAccepted(st, m, b) && "." !in m.files && LinksInside(root, m.files)
  }

  predicate ArchivesAccepted(st: Storage, m: Manifest, b: Manifest) {
    ListingIn(b.files.Keys);
    ListingIn(ChangedNames(b.files, m.files));
    && ArchiveMatches(st, BASE_SOURCE_PATH, b, Listing(b.files.Keys))
    && (m.sourceArchive == SOURCE_PATH ==>
          ArchiveMatches(st, SOURCE_PATH, m, Listing(ChangedNames(b.files, m.files))))
  }

  lemma ListingIn(s: set<Name>)
    ensures forall n :: n in Listing(s) <==> n in s
  {
    assert forall n :: n in Listing(s) <==> n in Elements(Listing(s));
  }

  // --- materialize -----------------------------------------------------------------

  predicate Distinct(s: seq<Name>) {
    forall i, j | 0 <= i < j < |s| :: s[i] != s[j]
  }

  /** `mkdir(parents=True)` and the creation of a fresh leaf both succeed; the root is there already. */
  predicate Creatable(fs: Tree, name: Name) {
    name != "." && name !in fs && forall m | m in fs :: !IsParent(m, name) && !IsParent(name, m)
  }

  lemma LeafCreatable(files: Files, fs: Tree, name: Name)
    requires PrefixFree(files.Keys) && fs.Keys <= files.Keys && name in files && name !in fs && name != "."
    ensures Creatable(fs, name)
  {
  }

  /** Everything on disk is the regular file the manifest asks for, each opened once. */
  predicate Partial(fs: Tree, log: seq<Name>, files: Files) {
    && Distinct(log) && Elements(log) == fs.Keys && fs.Keys <= files.Keys
    && forall n | n in fs :: fs[n].File? && EntryOf(fs[n]) == files[n]
  }

  predicate Selected(record: Manifest, final: Files, n: Name)
    requires n in record.files
  {
    record.files[n].FileEntry? && EntryIn(final, n) == Some(record.files[n])
  }

  lemma DistinctSnoc(log: seq<Name>, n: Name)
    requires Distinct(log) && n !in Elements(log)
    ensures Distinct(log + [n]) && Elements(log + [n]) == Elements(log) + {n}
  {
  }

  /** A selected member would have to replace the destination directory itself. */
  predicate WritesRoot(record: Manifest, final: Files, names: seq<Name>) {
    "." in names && "." in record.files && Selected(record, final, ".")
  }

  /** One archive: check every member against its record, write the selected regular files. */
  method Extract(record: Manifest, names: seq<Name>, members: seq<Member>, final: Files,
                 fs0: Tree, log0: seq<Name>)
    returns (ok: bool, fs: Tree, log: seq<Name>)
    requires Increasing(names) && forall n | n in names :: n in record.files
    requires forall n | n in record.files :: ValidEntry(record.files[n])
    requires PrefixFree(final.Keys) && Partial(fs0, log0, final)
    requires forall n | n in names && Selected(record, final, n) :: n !in fs0
    ensures ok <==> Covers(members, names, record.files) && !WritesRoot(record, final, names)
    ensures ok ==> Partial(fs, log, final)
    ensures ok ==> fs.Keys == fs0.Keys + (set n | n in names && Selected(record, final, n))
  {
    fs, log := fs0, log0;
    IncreasingDistinct(names);
    var seen: seq<Name> := [];
    for k := 0 to |members|
      invariant |seen| == k && forall i | 0 <= i < k :: seen[i] == members[i].name
      invariant Distinct(seen)
      invariant forall i | 0 <= i < k :: seen[i] in names && MemberMatches(members[i], record.files[seen[i]])
      invariant Partial(fs, log, final)
      invariant fs.Keys == fs0.Keys + (set n | n in seen && n in names && Selected(record, final, n))
      invariant !WritesRoot(record, final, seen)
    {
      var m := members[k];
      if m.name !in names || m.name in seen {
        return false, fs, log;
      }
      var entry := record.files[m.name];
      if entry.LinkEntry? {
        if !MemberMatches(m, entry) {
          return false, fs, log;
        }
      } else {
        if !m.FileMember? || |m.bytes| != entry.size || m.mode != entry.mode {
          return false, fs, log;
        }
        if Selected(record, final, m.name) {
          if m.name == "." {
            return false, fs, log;
          }
          assert Creatable(fs, m.name);
          DistinctSnoc(log, m.name);
          fs, log := fs[m.name := File(entry.mode == 0x1ed, m.bytes)], log + [m.name];
        }
        if Sha256(Raw(m.bytes)) != entry.sha256 {
          return false, fs, log;
        }
      }
      seen := seen + [m.name];
    }
    if seen != names {
      return false, fs, log;
    }
    ok := true;
  }

  /** One archive of the stored pair: its digest first, then its members. */
  method ExtractFrom(st: Storage, path: string, record: Manifest, names: seq<Name>, final: Files,
                     fs0: Tree, log0: seq<Name>)
    returns (ok: bool, fs: Tree, log: seq<Name>)
    requires Increasing(names) && forall n | n in names :: n in record.files
    requires forall n | n in record.files :: ValidEntry(record.files[n])
    requires PrefixFree(final.Keys) && Partial(fs0, log0, final)
    requires forall n | n in names && Selected(record, final, n) :: n !in fs0
    ensures ok <==> ArchiveMatches(st, path, record, names) && !WritesRoot(record, final, names)
    ensures ok ==> Partial(fs, log, final)
    ensures ok ==> fs.Keys == fs0.Keys + (set n | n in names && Selected(record, final, n))
  {
    if path !in st || Sha256(st[path]) != record.archiveSha256 || !st[path].Tar? {
      return false, fs0, log0;
    }
    ok, fs, log := Extract(record, names, st[path].members, final, fs0, log0);
  }

  function RegularNames(files: Files): set<Name> {
    set n | n in files && files[n].FileEntry?
  }

  /** The regular files of `m` that stand unchanged in `b`. */
  function Kept(m: Manifest, b: Manifest): set<Name> {
    set n | n in b.files && Selected(b, m.files, n)
  }

  /** The regular files of `m` that its delta carries. */
  function Carried(m: Manifest, b: Manifest): set<Name> {
    RegularNames(m.files) * ChangedNames(b.files, m.files)
  }

  /** Every final regular file comes from the baseline or from the delta, not from both. */
  lemma KeptOrCarried(m: Manifest, b: Manifest)
    ensures RegularNames(m.files) == Kept(m, b) + Carried(m, b) && Kept(m, b) !! Carried(m, b)
    ensures m == b ==> Carried(m, b) == {}
  {
  }

  method ExtractBase(st: Storage, m: Manifest, b: Manifest) returns (ok: bool, fs: Tree, log: seq<Name>)
    requires ValidManifest(m) && ValidManifest(b)
    requires forall n | n in Listing(b.files.Keys) :: n in b.files
    ensures ok <==> ArchiveMatches(st, BASE_SOURCE_PATH, b, Listing(b.files.Keys)) && "." !in Kept(m, b)
    ensures ok ==> Partial(fs, log, m.files) && fs.Keys == Kept(m, b)
  {
    ListingIn(b.files.Keys);
    ok, fs, log := ExtractFrom(st, BASE_SOURCE_PATH, b, Listing(b.files.Keys), m.files, map[], []);
  }

  method ExtractDelta(st: Storage, m: Manifest, b: Manifest, fs0: Tree, log0: seq<Name>)
    returns (ok: bool, fs: Tree, log: seq<Name>)
    requires ValidManifest(m) && Partial(fs0, log0, m.files) && fs0.Keys == Kept(m, b)
    requires forall n | n in Listing(ChangedNames(b.files, m.files)) :: n in m.files
    ensures ok <==> ArchiveMatches(st, SOURCE_PATH, m, Listing(ChangedNames(b.files, m.files))) && "." !in Carried(m, b)
    ensures ok ==> Partial(fs, log, m.files) && fs.Keys == Kept(m, b) + Carried(m, b)
  {
    ListingIn(ChangedNames(b.files, m.files));
    ok, fs, log := ExtractFrom(st, SOURCE_PATH, m, Listing(ChangedNames(b.files, m.files)), m.files, fs0, log0);
  }

  method ExtractAll(st: Storage, m: Manifest, b: Manifest) returns (ok: bool, fs: Tree, log: seq<Name>)
    requires ValidManifest(m) && ValidManifest(b)
    requires m.sourceArchive == BASE_SOURCE_PATH ==> m == b
    requires m.sourceArchive == SOURCE_PATH || m.sourceArchive == BASE_SOURCE_PATH
    ensures ok <==> ArchivesAccepted(st, m, b) && "." !in RegularNames(m.files)
    ensures ok ==> Partial(fs, log, m.files) && fs.Keys == RegularNames(m.files)
  {
    ListingIn(b.files.Keys);
    ListingIn(ChangedNames(b.files, m.files));
    KeptOrCarried(m, b);
    ok, fs, log := ExtractBase(st, m, b);
    if ok && m.sourceArchive == SOURCE_PATH {
      ok, fs, log := ExtractDelta(st, m, b, fs, log);
    }
  }

  /** The regular files stand as they were, and of the links exactly those among the first `k` names. */
  predicate Linked(files: Files, fs0: Tree, fs: Tree, names: seq<Name>, k: nat)
    requires k <= |names| && forall i | 0 <= i < |names| :: names[i] in files
  {
    && fs0.Keys <= fs.Keys <= files.Keys
    && (forall n | n in fs0 :: fs[n] == fs0[n])
    && (forall i | 0 <= i < k && files[names[i]].LinkEntry? ::
          names[i] != "." && names[i] in fs && fs[names[i]] == Link(files[names[i]].target))
    && (forall i | k <= i < |names| && names[i] in fs :: names[i] in fs0)
  }

  lemma LinkStep(files: Files, fs0: Tree, fs: Tree, names: seq<Name>, k: nat)
    requires k < |names| && (forall i | 0 <= i < |names| :: names[i] in files) && Distinct(names)
    requires fs0.Keys == RegularNames(files) && Linked(files, fs0, fs, names, k)
    requires files[names[k]].LinkEntry? && names[k] != "."
    ensures Linked(files, fs0, fs[names[k] := Link(files[names[k]].target)], names, k + 1) && names[k] !in fs
  {
  }

  /** Links are created after all regular files; only one in place of the root directory fails. */
  method CreateLinks(files: Files, fs0: Tree) returns (ok: bool, fs: Tree)
    requires PrefixFree(files.Keys)
    requires fs0.Keys == RegularNames(files)
    ensures ok <==> !("." in files && files["."].LinkEntry?)
    ensures ok ==> fs.Keys == files.Keys
    ensures ok ==> forall n | n in fs0 :: fs[n] == fs0[n]
    ensures ok ==> forall n | n in files && files[n].LinkEntry? :: fs[n] == Link(files[n].target)
  {
    fs := fs0;
    var names := Listing(files.Keys);
    ListingIn(files.Keys);
    IncreasingDistinct(names);
    assert forall i | 0 <= i < |names| :: names[i] in names;
    for k := 0 to |names|
      invariant Linked(files, fs0, fs, names, k)
    {
      var n := names[k];
      if files[n].LinkEntry? {
        if n == "." {
          return false, fs;
        }
        LinkStep(files, fs0, fs, names, k);
        LeafCreatable(files, fs, n);
        fs := fs[n := Link(files[n].target)];
      }
    }
    forall n | n in files && files[n].LinkEntry? ensures n != "." && n in fs && fs[n] == Link(files[n].target) {
      assert n in names;
    }
    ok := true;
  }

  method Materialize(st: Storage, expected: Digest, root: Path)
    returns (r: Result<Manifest>, fs: Tree, log: seq<Name>)
    ensures r.Ok? <==> Acceptable(st, expected, root)
    ensures r.Ok? ==> r.value == st[MANIFEST_PATH].manifest
    ensures r.Ok? ==> DescribeTree(root, fs) == Some(r.value.files)
    ensures r.Ok? ==> Distinct(log) && Elements(log) == RegularNames(r.value.files)
  {
    fs, log := map[], [];
    if !RecordsAccepted(st, expected) {
      return Raised, fs, log;
    }
    var m, b := st[MANIFEST_PATH].manifest, st[BASE_MANIFEST_PATH].manifest;
    var ok;
    ok, fs, log := ExtractAll(st, m, b);
    if !ok {
      return Raised, fs, log;
    }
    ghost var regular := fs;
    ok, fs := CreateLinks(m.files, fs);
    if !ok {
      return Raised, fs, log;
    }
    VerifiedExactly(root, regular, fs, m.files);
    if DescribeTree(root, fs) != Some(m.files) {
      return Raised, fs, log;
    }
    r := Ok(m);
  }

  /** `verify_tree` can only object to a link that leaves the worker's own root. */
  lemma VerifiedExactly(root: Path, regular: Tree, fs: Tree, files: Files)
    requires fs.Keys == files.Keys && forall n | n in files :: ValidEntry(files[n])
    requires regular.Keys == RegularNames(files)
    requires forall n | n in regular ::
      fs[n] == regular[n] && regular[n].File? && EntryOf(regular[n]) == files[n]
    requires forall n | n in files && files[n].LinkEntry? :: fs[n] == Link(files[n].target)
    ensures DescribeTree(root, fs) == Some(files) <==> LinksInside(root, files)
  {
    SameEntries(regular, fs, files);
    assert forall n | n in LinksOf(fs) :: ValidEntry(files[n]);
  }

  lemma SameEntries(regular: Tree, fs: Tree, files: Files)
    requires fs.Keys == files.Keys && regular.Keys == RegularNames(files)
    requires forall n | n in regular :: fs[n] == regular[n] && regular[n].File? && EntryOf(regular[n]) == files[n]
    requires forall n | n in files && files[n].LinkEntry? :: fs[n] == Link(files[n].target)
    ensures Entries(fs) == files && LinksOf(fs) == LinkTargets(files)
  {
    forall n | n in files ensures EntryOf(fs[n]) == files[n] {
      if files[n].FileEntry? {
        assert n in regular;
      }
    }
  }
}
