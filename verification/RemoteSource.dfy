/** The published source of the remote build protocol: what storage holds in every reachable state, and what a
    worker finds there. */
module RemoteSource {
  import opened Wrappers
  import opened Links
  import opened SourceTree
  import opened Materialize
  import opened RoundTrip
  import opened RemoteBuild
  import opened RemoteFence

  // --- What every step keeps ------------------------------------------------------------

  /** Manifest `m` came from one whole capture against `baseline`. */
  predicate From(s: State, baseline: Option<Manifest>, m: Manifest) {
    m in s.captures && Captured(s.captures[m].root, s.captures[m].tree, baseline, m)
  }

  /** `m` was captured against the stored baseline, or is the baseline, and its archive is stored. */
  predicate InPlace(s: State, m: Manifest) {
    && StoredBase(s.storage).Some? && m in s.captures && s.captures[m].tree.Keys == m.files.Keys
    && Derived(s, m)
    && ArchiveCurrent(s.storage, s.captures[m].tree, m, StoredBase(s.storage).value)
  }

  predicate Derived(s: State, m: Manifest)
    requires StoredBase(s.storage).Some?
  {
    m == StoredBase(s.storage).value || From(s, StoredBase(s.storage), m)
  }

  /** The current manifest is the one with digest `sha`, and it is complete in storage. */
  predicate ReadyFor(s: State, sha: Digest) {
    && MANIFEST_PATH in s.storage && s.storage[MANIFEST_PATH].Json?
    && sha == Sha256(s.storage[MANIFEST_PATH]) && InPlace(s, s.storage[MANIFEST_PATH].manifest)
  }

  predicate RequestReady(s: State, j: JobId) {
    j in s.requests && ReadyFor(s, s.requests[j])
  }

  predicate SourcePc(s: State, pc: Pc) {
    match pc
    case Based(baseline) => baseline == StoredBase(s.storage)
    case Holding(baseline, m) => baseline == StoredBase(s.storage) && From(s, baseline, m)
    case Uploaded(m) => InPlace(s, m)
    case Published(m) => ReadyFor(s, Sha256(Json(m)))
    case Prepared(j) => RequestReady(s, j)
    case Opened(j) => RequestReady(s, j)
    case Submitted(j) => RequestReady(s, j)
    case _ => true
  }

  predicate BaseOk(s: State) {
    BASE_MANIFEST_PATH in s.storage ==>
      && StoredBase(s.storage).Some? && StoredBase(s.storage).value in s.captures
      && var b := StoredBase(s.storage).value;
      BaseStored(s.storage, s.captures[b].root, s.captures[b].tree, b)
  }

  predicate ManifestOk(s: State) {
    MANIFEST_PATH in s.storage ==>
      && s.storage[MANIFEST_PATH].Json? && StoredBase(s.storage).Some?
      && s.storage[MANIFEST_PATH].manifest in s.captures && Derived(s, s.storage[MANIFEST_PATH].manifest)
  }

  predicate CapturesOk(s: State) {
    forall m | m in s.captures ::
      && DescribeTree(s.captures[m].root, s.captures[m].tree) == Some(m.files)
      && SourcePathsOk(s.captures[m].root, s.captures[m].tree)
  }

  predicate StoreOk(s: State) {
    CapturesOk(s) && BaseOk(s) && ManifestOk(s)
  }

  /** Storage is consistent, and every controller's claim on it holds. */
  predicate StorageInv(s: State) {
    StoreOk(s) && forall p | p in s.controllers :: SourcePc(s, s.controllers[p])
  }

  predicate SameSource(s: State, s': State) {
    s'.storage == s.storage && s'.captures == s.captures && s'.requests == s.requests
  }

  lemma ClaimFrame(s: State, s': State, pc: Pc)
    requires SameSource(s, s')
    ensures SourcePc(s', pc) == SourcePc(s, pc)
  {
  }

  lemma StorageFrame(s: State, s': State)
    requires StorageInv(s) && SameSource(s, s')
    requires forall p | p in s'.controllers :: SourcePc(s, s'.controllers[p])
    ensures StorageInv(s')
  {
    forall p | p in s'.controllers ensures SourcePc(s', s'.controllers[p]) {
      ClaimFrame(s, s', s'.controllers[p]);
    }
  }

  /** One controller moves to a point with no claim on storage, or with the claim it already had. */
  lemma MoveStorage(s: State, s': State, p: Pid)
    requires StorageInv(s) && SameSource(s, s')
    requires p in s'.controllers && s'.controllers == s.controllers[p := s'.controllers[p]]
    requires SourcePc(s, s'.controllers[p])
    ensures StorageInv(s')
  {
    StorageFrame(s, s');
  }

  lemma ControllerStorage(s: State, a: Action)
    requires StorageInv(s) && SyncEnabled(s, a) && (a.Acquire? || a.ScanDone? || a.ReadBase?)
    ensures StorageInv(SyncApply(s, a))
  {
    MoveStorage(s, SyncApply(s, a), a.p);
  }

  predicate Submits(a: Action) {
    a.Prepare? || a.Open? || a.RecordSubmitting?
  }

  lemma JobStorage(s: State, a: Action)
    requires StorageInv(s) && JobEnabled(s, a) && !Submits(a)
    ensures StorageInv(JobApply(s, a))
  {
    MoveStorage(s, JobApply(s, a), a.p);
  }

  lemma RaiseDropsClaim(s: State, pc: Pc)
    ensures SourcePc(s, AfterRaise(pc))
  {
  }

  lemma RaiseStorage(s: State, a: Action)
    requires StorageInv(s) && SyncEnabled(s, a) && a.Raise?
    ensures StorageInv(SyncApply(s, a))
  {
    RaiseDropsClaim(s, s.controllers[a.p]);
    MoveStorage(s, SyncApply(s, a), a.p);
  }

  lemma ScanStorage(s: State, a: Action)
    requires StorageInv(s) && SyncEnabled(s, a) && a.Scan?
    ensures StorageInv(SyncApply(s, a))
  {
    var pc := if UnsettledPhase(s.records[a.j].phase) then Leaving else Scanning(s.controllers[a.p].todo - {a.j});
    assert SyncApply(s, a) == Goto(s, a.p, pc);
    GotoStorage(s, a.p, pc);
  }

  lemma GotoStorage(s: State, p: Pid, pc: Pc)
    requires StorageInv(s) && SourcePc(s, pc)
    ensures StorageInv(Goto(s, p, pc))
  {
    MoveStorage(s, Goto(s, p, pc), p);
  }

  lemma CarryStorage(s: State, a: Action)
    requires StorageInv(s) && JobEnabled(s, a) && (a.Open? || a.RecordSubmitting?)
    ensures StorageInv(JobApply(s, a))
  {
    assert SourcePc(s, s.controllers[a.p]);
    MoveStorage(s, JobApply(s, a), a.p);
  }

  lemma WorkerStorage(s: State, a: Action)
    requires StorageInv(s) && WorkerEnabled(s, a)
    ensures StorageInv(WorkerApply(s, a))
  {
    StorageFrame(s, WorkerApply(s, a));
  }

  lemma QueryStorage(s: State, a: Action)
    requires StorageInv(s) && QueryEnabled(s, a)
    ensures StorageInv(QueryApply(s, a))
  {
    StorageFrame(s, QueryApply(s, a));
  }

  lemma LeaveStorage(s: State, a: Action)
    requires StorageInv(s) && SyncEnabled(s, a) && (a.Release? || a.Kill?)
    ensures StorageInv(SyncApply(s, a))
  {
    StorageFrame(s, SyncApply(s, a));
  }

  /** The lock holder is the only controller, so when it changes storage only its own claim is at stake. */
  lemma HolderStorage(s: State, s': State, p: Pid)
    requires LockInv(s) && p in s.controllers && s'.controllers.Keys == s.controllers.Keys
    requires StoreOk(s') && SourcePc(s', s'.controllers[p])
    ensures StorageInv(s')
  {
    assert s.controllers.Keys == {p};
  }

  lemma RequestWritten(s: State, s': State, j: JobId, sha: Digest)
    requires StoreOk(s) && ReadyFor(s, sha)
    requires s'.storage == s.storage && s'.captures == s.captures && s'.requests == s.requests[j := sha]
    ensures StoreOk(s') && RequestReady(s', j)
  {
  }

  lemma PreparedStorage(s: State, s': State, p: Pid, j: JobId, sha: Digest)
    requires LockInv(s) && StoreOk(s) && ReadyFor(s, sha) && p in s.controllers
    requires s'.storage == s.storage && s'.captures == s.captures && s'.requests == s.requests[j := sha]
    requires s'.controllers == s.controllers[p := Prepared(j)]
    ensures StorageInv(s')
  {
    RequestWritten(s, s', j, sha);
    HolderStorage(s, s', p);
  }

  lemma PrepareStorage(s: State, a: Action)
    requires LockInv(s) && StorageInv(s) && JobEnabled(s, a) && a.Prepare?
    ensures StorageInv(JobApply(s, a))
  {
    assert SourcePc(s, s.controllers[a.p]);
    PreparedStorage(s, JobApply(s, a), a.p, a.j, Sha256(s.storage[MANIFEST_PATH]));
  }

  /** A manifest that was captured before was captured from the same tree. */
  lemma CapturedBefore(s: State, root: Path, t: Tree, baseline: Option<Manifest>, m: Manifest)
    requires CapturesOk(s) && Captured(root, t, baseline, m)
    ensures var captures := Recorded(s.captures, m, Origin(root, t));
            Captured(captures[m].root, captures[m].tree, baseline, m)
  {
    if m in s.captures {
      DescribeInjective(s.captures[m].root, root, s.captures[m].tree, t);
    }
  }

  lemma CapturesGrow(s: State, s': State, m: Manifest, o: Origin)
    requires StoreOk(s) && DescribeTree(o.root, o.tree) == Some(m.files) && SourcePathsOk(o.root, o.tree)
    requires s'.captures == Recorded(s.captures, m, o) && s'.storage == s.storage
    ensures StoreOk(s')
  {
    assert forall k | k in s.captures :: k in s'.captures && s'.captures[k] == s.captures[k];
    assert MANIFEST_PATH in s.storage && From(s, StoredBase(s.storage), s.storage[MANIFEST_PATH].manifest) ==>
           From(s', StoredBase(s.storage), s.storage[MANIFEST_PATH].manifest);
  }

  lemma CaptureStorage(s: State, a: Action)
    requires LockInv(s) && StorageInv(s) && SyncEnabled(s, a) && a.CaptureTree?
    ensures StorageInv(SyncApply(s, a))
  {
    var s', root := SyncApply(s, a), s.sites[a.p].root;
    assert SourcePc(s, s.controllers[a.p]);
    var Holding(baseline, m) := s'.controllers[a.p];
    CapturedBefore(s, root, a.t, baseline, m);
    CapturesGrow(s, s', m, Origin(root, a.t));
    HolderStorage(s, s', a.p);
  }

  lemma PathsDiffer()
    ensures SOURCE_PATH != MANIFEST_PATH && SOURCE_PATH != BASE_SOURCE_PATH && SOURCE_PATH != BASE_MANIFEST_PATH
    ensures MANIFEST_PATH != BASE_SOURCE_PATH && MANIFEST_PATH != BASE_MANIFEST_PATH
    ensures BASE_SOURCE_PATH != BASE_MANIFEST_PATH
  {
    assert |SOURCE_PATH| == 25 && |MANIFEST_PATH| == 21 && |BASE_SOURCE_PATH| == 19 && |BASE_MANIFEST_PATH| == 26;
  }

  lemma FirstUpload(s: State, s': State, m: Manifest)
    requires StoreOk(s) && StoredBase(s.storage).None? && From(s, None, m)
    requires s'.captures == s.captures && s'.storage == RemoteBuild.Uploads(s, None, m)
    ensures StoreOk(s') && InPlace(s', m)
  {
    PathsDiffer();
    assert BaseStored(s'.storage, s'.captures[m].root, s'.captures[m].tree, m);
  }

  /** The delta archive is no part of what is kept about the baseline and the manifest. */
  lemma DeltaReplaced(s: State, s': State, archive: Blob)
    requires StoreOk(s) && s'.captures == s.captures && s'.storage == s.storage[SOURCE_PATH := archive]
    ensures StoreOk(s') && StoredBase(s'.storage) == StoredBase(s.storage)
  {
    PathsDiffer();
    if BASE_MANIFEST_PATH in s.storage {
      var b := StoredBase(s.storage).value;
      assert BaseStored(s'.storage, s'.captures[b].root, s'.captures[b].tree, b);
    }
  }

  lemma LaterUpload(s: State, s': State, b: Manifest, m: Manifest)
    requires StoreOk(s) && StoredBase(s.storage) == Some(b) && From(s, Some(b), m)
    requires s'.captures == s.captures && s'.storage == RemoteBuild.Uploads(s, Some(b), m)
    ensures StoreOk(s') && InPlace(s', m)
  {
    DeltaReplaced(s, s', Tar(ArchiveOf(s.captures[m].tree, m.files, Some(b))));
  }

  lemma ArchiveStorage(s: State, a: Action)
    requires LockInv(s) && StorageInv(s) && SyncEnabled(s, a) && a.UploadArchive?
    ensures StorageInv(SyncApply(s, a))
  {
    var s' := SyncApply(s, a);
    assert SourcePc(s, s.controllers[a.p]);
    var Holding(baseline, m) := s.controllers[a.p];
    if baseline.None? {
      FirstUpload(s, s', m);
    } else {
      LaterUpload(s, s', baseline.value, m);
    }
    HolderStorage(s, s', a.p);
  }

  lemma ManifestUpload(s: State, s': State, m: Manifest)
    requires StoreOk(s) && InPlace(s, m)
    requires s'.captures == s.captures && s'.storage == s.storage[MANIFEST_PATH := Json(m)]
    ensures StoreOk(s') && ReadyFor(s', Sha256(Json(m)))
  {
    PathsDiffer();
    assert StoredBase(s'.storage) == StoredBase(s.storage);
    assert InPlace(s', m);
  }

  lemma PublishedStorage(s: State, p: Pid, m: Manifest)
    requires LockInv(s) && StorageInv(s) && p in s.controllers && s.controllers[p] == Uploaded(m)
    ensures StorageInv(Goto(s, p, Published(m)).(storage := s.storage[MANIFEST_PATH := Json(m)]))
  {
    var s' := Goto(s, p, Published(m)).(storage := s.storage[MANIFEST_PATH := Json(m)]);
    assert SourcePc(s, s.controllers[p]);
    ManifestUpload(s, s', m);
    HolderStorage(s, s', p);
  }

  lemma ManifestStorage(s: State, a: Action)
    requires LockInv(s) && StorageInv(s) && SyncEnabled(s, a) && a.UploadManifest?
    ensures StorageInv(SyncApply(s, a))
  {
    PublishedStorage(s, a.p, s.controllers[a.p].m);
  }

  lemma SyncStorage(s: State, a: Action)
    requires LockInv(s) && StorageInv(s) && SyncEnabled(s, a)
    ensures StorageInv(SyncApply(s, a))
  {
    if a.CaptureTree? { CaptureStorage(s, a); }
    else if a.UploadArchive? { ArchiveStorage(s, a); }
    else if a.UploadManifest? { ManifestStorage(s, a); }
    else if a.Release? || a.Kill? { LeaveStorage(s, a); }
    else if a.Raise? { RaiseStorage(s, a); }
    else if a.Scan? { ScanStorage(s, a); }
    else { ControllerStorage(s, a); }
  }

  /** Every step, of whatever checkout, keeps the published source consistent with one whole capture. */
  lemma StorageStep(s: State, a: Action)
    requires LockInv(s) && StorageInv(s) && Enabled(s, a)
    ensures StorageInv(Apply(s, a))
  {
    if SyncEnabled(s, a) { SyncStorage(s, a); }
    else if WorkerEnabled(s, a) { WorkerStorage(s, a); }
    else if QueryEnabled(s, a) { QueryStorage(s, a); }
    else if a.Prepare? { PrepareStorage(s, a); }
    else if Submits(a) { CarryStorage(s, a); }
    else { JobStorage(s, a); }
  }

  // --- Theorems over whole runs ----------------------------------------------------------

  lemma {:induction false} RunStorage(acts: seq<Action>, states: seq<State>, i: nat)
    requires IsRun(acts, states) && i < |states|
    ensures StorageInv(states[i])
  {
    if i > 0 {
      RunStorage(acts, states, i - 1);
      StorageNext(acts, states, i - 1);
    }
  }

  lemma StorageNext(acts: seq<Action>, states: seq<State>, i: nat)
    requires IsRun(acts, states) && i < |acts| && StorageInv(states[i])
    ensures StorageInv(states[i + 1])
  {
    RunFence(acts, states, i);
    assert Steps(states, acts, i);
    StorageStep(states[i], acts[i]);
  }

  predicate SameBase(st: Storage, st': Storage) {
    && BASE_MANIFEST_PATH in st && BASE_MANIFEST_PATH in st' && st'[BASE_MANIFEST_PATH] == st[BASE_MANIFEST_PATH]
    && BASE_SOURCE_PATH in st && BASE_SOURCE_PATH in st' && st'[BASE_SOURCE_PATH] == st[BASE_SOURCE_PATH]
  }

  lemma BaseSync(s: State, a: Action)
    requires StorageInv(s) && SyncEnabled(s, a) && BASE_MANIFEST_PATH in s.storage
    ensures SameBase(s.storage, SyncApply(s, a).storage)
  {
    assert SameBase(s.storage, s.storage);
    if a.UploadArchive? {
      BaseUpload(s, a);
    } else {
      SyncStores(s, a);
      PathsDiffer();
    }
  }

  lemma SyncStores(s: State, a: Action)
    requires SyncEnabled(s, a) && !a.UploadArchive?
    ensures SyncApply(s, a).storage == s.storage || (a.UploadManifest? && SyncApply(s, a).storage == s.storage[MANIFEST_PATH := Json(s.controllers[a.p].m)])
  {
  }

  lemma BaseStep(s: State, a: Action)
    requires StorageInv(s) && Enabled(s, a) && BASE_MANIFEST_PATH in s.storage
    ensures SameBase(s.storage, Apply(s, a).storage)
  {
    if SyncEnabled(s, a) {
      BaseSync(s, a);
    } else {
      StorageKept(s, a);
    }
  }

  lemma StorageKept(s: State, a: Action)
    requires Enabled(s, a) && !SyncEnabled(s, a)
    ensures Apply(s, a).storage == s.storage
  {
    if JobEnabled(s, a) {
      assert JobApply(s, a).storage == s.storage;
    }
  }

  lemma BaseUpload(s: State, a: Action)
    requires StorageInv(s) && SyncEnabled(s, a) && a.UploadArchive? && BASE_MANIFEST_PATH in s.storage
    ensures SameBase(s.storage, SyncApply(s, a).storage)
  {
    PathsDiffer();
    assert SourcePc(s, s.controllers[a.p]);
  }

  lemma BaseKept(acts: seq<Action>, states: seq<State>, k: nat)
    requires IsRun(acts, states) && k < |acts| && BASE_MANIFEST_PATH in states[k].storage
    ensures SameBase(states[k].storage, states[k + 1].storage)
  {
    RunStorage(acts, states, k);
    assert Steps(states, acts, k);
    BaseStep(states[k], acts[k]);
  }

  lemma BaseThere(acts: seq<Action>, states: seq<State>, i: nat)
    requires IsRun(acts, states) && i < |states| && BASE_MANIFEST_PATH in states[i].storage
    ensures SameBase(states[i].storage, states[i].storage)
  {
    RunStorage(acts, states, i);
  }

  /** The baseline pair is written at most once: from the first state that shows its manifest on, both
      objects stay what they are. */
  lemma {:induction false} BaselineImmutable(acts: seq<Action>, states: seq<State>, i: nat, k: nat)
    requires IsRun(acts, states) && i <= k < |states| && BASE_MANIFEST_PATH in states[i].storage
    ensures SameBase(states[i].storage, states[k].storage)
    decreases k
  {
    if i == k {
      BaseThere(acts, states, i);
    } else {
      BaselineImmutable(acts, states, i, k - 1);
      BaseKept(acts, states, k - 1);
    }
  }

  /** The condition under which a worker can use what is stored. */
  predicate Usable(s: State, worker: Path) {
    && MANIFEST_PATH in s.storage && s.storage[MANIFEST_PATH].Json?
    && var m := s.storage[MANIFEST_PATH].manifest;
    && InPlace(s, m) && StoredBase(s.storage).value in s.captures
    && Admissible(s.captures[StoredBase(s.storage).value].tree) && Admissible(s.captures[m].tree) && LinksInside(worker, m.files)
  }

  lemma UsableExactly(s: State, expected: Digest, worker: Path)
    requires StoreOk(s)
    ensures Acceptable(s.storage, expected, worker) <==>
            MANIFEST_PATH in s.storage && expected == Sha256(s.storage[MANIFEST_PATH]) && Usable(s, worker)
  {
    if MANIFEST_PATH in s.storage {
      var m, b := s.storage[MANIFEST_PATH].manifest, StoredBase(s.storage).value;
      assert BASE_MANIFEST_PATH in s.storage;
      assert expected == Sha256(s.storage[MANIFEST_PATH]) ==> expected == Sha256(Json(m));
      AcceptedExactly(s.storage, s.captures[b].root, s.captures[m].root, worker, s.captures[b].tree, b, s.captures[m].tree, m);
    }
  }

  /** Torn-publication safety, exactly: whatever the crashes, the stored source is acceptable to a
      worker rooted at `worker` for the digest `expected` if and only if that is the digest of the
      current manifest, its archive has not been replaced by a newer one, and the trees are admissible.
      Then the worker's tree is the tree that the one capture of that manifest recorded. */
  lemma TornPublication(acts: seq<Action>, states: seq<State>, i: nat, expected: Digest, worker: Path)
    requires IsRun(acts, states) && i < |states|
    ensures
      var s := states[i];
      Acceptable(s.storage, expected, worker) <==>
        MANIFEST_PATH in s.storage && expected == Sha256(s.storage[MANIFEST_PATH]) && Usable(s, worker)
    ensures
      var s := states[i];
      Acceptable(s.storage, expected, worker) ==>
        var m := s.storage[MANIFEST_PATH].manifest;
        && m in s.captures && expected == Sha256(Json(m))
        && forall fs: Tree :: DescribeTree(worker, fs) == Some(m.files) ==> fs == s.captures[m].tree
  {
    RunStorage(acts, states, i);
    var s := states[i];
    UsableExactly(s, expected, worker);
    if Acceptable(s.storage, expected, worker) {
      var m := s.storage[MANIFEST_PATH].manifest;
      forall fs: Tree | DescribeTree(worker, fs) == Some(m.files) ensures fs == s.captures[m].tree {
        DescribeInjective(s.captures[m].root, worker, s.captures[m].tree, fs);
      }
    }
  }

  // --- One record directory ------------------------------------------------------------------

  /** Every live worker's request names what is stored. */
  ghost predicate WorkersReady(s: State) {
    forall j | Busy(s, j) :: RequestReady(s, j)
  }

  lemma ReadyFrame(s: State, s': State, j: JobId)
    requires SameSource(s, s') && RequestReady(s, j)
    ensures RequestReady(s', j)
  {
  }

  /** Between the scan and the submission no worker exists. */
  lemma QuietStep(s: State, a: Action, d: Dir, j: JobId)
    requires FenceInv(s) && HomeInv(s, d) && SyncEnabled(s, a) && Syncs(a)
    ensures !Busy(SyncApply(s, a), j)
  {
    SyncStep(s, a);
    NoWorker(s, d, j);
  }

  lemma PrepareQuiet(s: State, a: Action, d: Dir, j: JobId)
    requires FenceInv(s) && HomeInv(s, d) && JobEnabled(s, a) && a.Prepare?
    ensures !Busy(JobApply(s, a), j)
  {
    assert PcInv(s, s.sites[a.p].dir, s.controllers[a.p]);
    NoWorker(s, d, j);
  }

  lemma EdgeReady(s: State, a: Action, j: JobId)
    requires WorkersReady(s) && SyncEnabled(s, a) && !Syncs(a) && Busy(SyncApply(s, a), j)
    ensures RequestReady(SyncApply(s, a), j)
  {
    assert Busy(s, j);
    ReadyFrame(s, SyncApply(s, a), j);
  }

  lemma SyncReady(s: State, a: Action, d: Dir, j: JobId)
    requires FenceInv(s) && HomeInv(s, d) && WorkersReady(s) && SyncEnabled(s, a) && Busy(SyncApply(s, a), j)
    ensures RequestReady(SyncApply(s, a), j)
  {
    if Syncs(a) {
      QuietStep(s, a, d, j);
    } else {
      EdgeReady(s, a, j);
    }
  }

  lemma SpawnReady(s: State, a: Action, j: JobId)
    requires StorageInv(s) && WorkersReady(s) && JobEnabled(s, a) && a.Spawn? && Busy(JobApply(s, a), j)
    ensures RequestReady(JobApply(s, a), j)
  {
    if j == s.controllers[a.p].job {
      assert SourcePc(s, s.controllers[a.p]);
    } else {
      assert Busy(s, j);
    }
    ReadyFrame(s, JobApply(s, a), j);
  }

  lemma OwnReady(s: State, a: Action, j: JobId)
    requires WorkersReady(s) && JobEnabled(s, a) && !a.Prepare? && !a.Spawn? && Busy(JobApply(s, a), j)
    ensures RequestReady(JobApply(s, a), j)
  {
    assert Busy(s, j);
    ReadyFrame(s, JobApply(s, a), j);
  }

  lemma JobReady(s: State, a: Action, d: Dir, j: JobId)
    requires FenceInv(s) && HomeInv(s, d) && StorageInv(s) && WorkersReady(s) && JobEnabled(s, a) && Busy(JobApply(s, a), j)
    ensures RequestReady(JobApply(s, a), j)
  {
    if a.Prepare? {
      PrepareQuiet(s, a, d, j);
    } else if a.Spawn? {
      SpawnReady(s, a, j);
    } else {
      OwnReady(s, a, j);
    }
  }

  lemma OutsideReady(s: State, a: Action, j: JobId)
    requires WorkersReady(s) && Enabled(s, a) && !SyncEnabled(s, a) && !JobEnabled(s, a) && Busy(Apply(s, a), j)
    ensures RequestReady(Apply(s, a), j)
  {
    assert Busy(s, j);
    ReadyFrame(s, Apply(s, a), j);
  }

  lemma ReadyStep(s: State, a: Action, d: Dir)
    requires FenceInv(s) && HomeInv(s, d) && StorageInv(s) && WorkersReady(s) && Enabled(s, a)
    ensures WorkersReady(Apply(s, a))
  {
    forall j | Busy(Apply(s, a), j) ensures RequestReady(Apply(s, a), j) {
      if SyncEnabled(s, a) { SyncReady(s, a, d, j); }
      else if JobEnabled(s, a) { JobReady(s, a, d, j); }
      else { OutsideReady(s, a, j); }
    }
  }

  lemma {:induction false} RunReady(acts: seq<Action>, states: seq<State>, d: Dir, i: nat)
    requires IsRun(acts, states) && OneDirectory(acts, d) && i < |states|
    ensures WorkersReady(states[i])
  {
    if i > 0 {
      RunReady(acts, states, d, i - 1);
      ReadyNext(acts, states, d, i - 1);
    }
  }

  lemma ReadyNext(acts: seq<Action>, states: seq<State>, d: Dir, i: nat)
    requires IsRun(acts, states) && OneDirectory(acts, d) && i < |acts| && WorkersReady(states[i])
    ensures WorkersReady(states[i + 1])
  {
    RunFence(acts, states, i);
    RunHome(acts, states, d, i);
    RunStorage(acts, states, i);
    assert Steps(states, acts, i);
    ReadyStep(states[i], acts[i], d);
  }

  /** Fence and publication together, when all controllers share one record directory: a worker that is
      submitted or executing always finds exactly the source its request names. It can only be refused because
      the captured trees are inadmissible to any worker, never because of a torn, newer or foreign publication. */
  lemma LiveWorkerSource(acts: seq<Action>, states: seq<State>, d: Dir, i: nat, j: JobId, worker: Path)
    requires IsRun(acts, states) && OneDirectory(acts, d) && i < |states| && Busy(states[i], j)
    ensures j in states[i].requests
    ensures
      var s := states[i];
      && MANIFEST_PATH in s.storage && s.storage[MANIFEST_PATH].Json? && StoredBase(s.storage).Some?
      && var m, b := s.storage[MANIFEST_PATH].manifest, StoredBase(s.storage).value;
      && s.requests[j] == Sha256(Json(m)) && m in s.captures && b in s.captures
      && (Acceptable(s.storage, s.requests[j], worker) <==>
            Admissible(s.captures[b].tree) && Admissible(s.captures[m].tree) && LinksInside(worker, m.files))
  {
    RunReady(acts, states, d, i);
    RunStorage(acts, states, i);
    var s := states[i];
    assert RequestReady(s, j);
    assert BASE_MANIFEST_PATH in s.storage;
    UsableExactly(s, s.requests[j], worker);
  }
}
