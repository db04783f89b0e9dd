/** Two record directories under one lock, for instance two checkouts on one host: the fence of the remote build
    protocol does not reach from one to the other. */
module TwoDirectories {
  import opened Wrappers
  import opened Links
  import opened SourceTree
  import opened Materialize
  import opened RemoteBuild
  import opened RemoteFence

  /** A piece of a run. */
  ghost predicate Fragment(acts: seq<Action>, states: seq<State>) {
    |states| == |acts| + 1 && forall i {:trigger Steps(states, acts, i)} | 0 <= i < |acts| :: Steps(states, acts, i)
  }

  lemma Append(a: seq<Action>, s: seq<State>, b: seq<Action>, t: seq<State>)
    requires Fragment(a, s) && Fragment(b, t) && s[|a|] == t[0]
    ensures Fragment(a + b, s + t[1..]) && (s + t[1..])[|a + b|] == t[|b|]
    ensures forall i: nat | i <= |b| :: (s + t[1..])[|a| + i] == t[i]
  {
    var acts, states := a + b, s + t[1..];
    forall i | 0 <= i < |acts|
      ensures Steps(states, acts, i)
    {
      if i < |a| {
        assert Steps(s, a, i);
      } else {
        assert Steps(t, b, i - |a|);
      }
    }
  }

  lemma Three(s: State, a: Action, s1: State, b: Action, s2: State, c: Action, s3: State)
    requires Fragment([a], [s, s1]) && Fragment([b], [s1, s2]) && Fragment([c], [s2, s3])
    ensures Fragment([a, b, c], [s, s1, s2, s3])
  {
    Append([a], [s, s1], [b], [s1, s2]);
    assert [a] + [b] == [a, b] && [s, s1] + [s1, s2][1..] == [s, s1, s2];
    Append([a, b], [s, s1, s2], [c], [s2, s3]);
    assert [a, b] + [c] == [a, b, c] && [s, s1, s2] + [s2, s3][1..] == [s, s1, s2, s3];
  }

  lemma One(s: State, a: Action, s1: State)
    requires Enabled(s, a) && s1 == Apply(s, a)
    ensures Fragment([a], [s, s1])
  {
    assert Steps([s, s1], [a], 0);
  }

  /** Nothing is tracked: the smallest capture. */
  lemma EmptyTree(root: Path)
    ensures DescribeTree(root, map[]) == Some(map[]) && ListedByGit(map[])
  {
    var t: Tree := map[];
    assert DescribeTree(root, t).value == map[];
  }

  function ManifestFor(s: State, head: string): Manifest {
    ManifestOf(head, map[], map[], StoredBase(s.storage))
  }

  /** A controller takes the free lock and finds no record in its directory. */
  predicate Free(s: State, p: Pid, site: Site) {
    s.lock.None? && s.controllers == map[] && RecordsIn(s, site.dir) == {}
  }

  lemma Entered(s: State, p: Pid, site: Site) returns (acts: seq<Action>, states: seq<State>)
    requires Free(s, p, site)
    ensures Fragment(acts, states) && states[0] == s && acts == [Acquire(p, site), ScanDone(p), ReadBase(p)]
    ensures states[3] == Goto(In(s, p, site), p, Based(StoredBase(s.storage)))
    ensures SameJobsAndLock(In(s, p, site), states[3])
  {
    var s1 := Apply(s, Acquire(p, site));
    var s2 := Apply(s1, ScanDone(p));
    var s3 := Apply(s2, ReadBase(p));
    One(s, Acquire(p, site), s1);
    One(s1, ScanDone(p), s2);
    One(s2, ReadBase(p), s3);
    Three(s, Acquire(p, site), s1, ScanDone(p), s2, ReadBase(p), s3);
    acts, states := [Acquire(p, site), ScanDone(p), ReadBase(p)], [s, s1, s2, s3];
    assert s3.controllers == s.controllers[p := Based(StoredBase(s.storage))];
  }

  /** Every capture so far was of an empty tree. */
  predicate CapturesEmpty(s: State) {
    forall m | m in s.captures :: s.captures[m].tree == map[] && m.files == map[]
  }

  /** Only the controller's place, storage and the captures differ. */
  predicate SameJobsAndLock(s: State, s': State) {
    && s'.lock == s.lock && s'.sites == s.sites && s'.calls == s.calls && s'.records == s.records
    && s'.homes == s.homes && s'.requests == s.requests
  }

  lemma Captures(s: State, p: Pid, head: string)
    requires At(s, p) && s.controllers[p] == Based(StoredBase(s.storage)) && CapturesEmpty(s)
    ensures SyncEnabled(s, CaptureTree(p, head, map[]))
    ensures var s' := SyncApply(s, CaptureTree(p, head, map[]));
            && SameJobsAndLock(s, s') && CapturesEmpty(s') && s'.storage == s.storage
            && s'.controllers == s.controllers[p := Holding(StoredBase(s.storage), ManifestFor(s, head))]
            && ManifestFor(s, head) in s'.captures
  {
    EmptyTree(s.sites[p].root);
  }

  lemma UploadsArchive(s: State, p: Pid)
    requires At(s, p) && s.controllers[p].Holding? && CapturesEmpty(s) && s.controllers[p].m in s.captures
    ensures SyncEnabled(s, UploadArchive(p))
    ensures var s' := SyncApply(s, UploadArchive(p));
            SameJobsAndLock(s, s') && s'.captures == s.captures && s'.controllers == s.controllers[p := Uploaded(s.controllers[p].m)]
  {
  }

  lemma UploadsManifest(s: State, p: Pid)
    requires At(s, p) && s.controllers[p].Uploaded?
    ensures SyncEnabled(s, UploadManifest(p))
    ensures var s' := SyncApply(s, UploadManifest(p));
            && SameJobsAndLock(s, s') && s'.captures == s.captures && s'.controllers == s.controllers[p := Published(s.controllers[p].m)]
            && MANIFEST_PATH in s'.storage && s'.storage[MANIFEST_PATH] == Json(s.controllers[p].m)
  {
  }

  /** The controller has captured nothing under `head` and published that. */
  predicate PublishedBy(s: State, s': State, p: Pid, m: Manifest) {
    && SameJobsAndLock(s, s') && CapturesEmpty(s') && s'.controllers == s.controllers[p := Published(m)]
    && MANIFEST_PATH in s'.storage && s'.storage[MANIFEST_PATH] == Json(m)
  }

  lemma Publishes(s: State, p: Pid, head: string) returns (acts: seq<Action>, states: seq<State>)
    requires At(s, p) && s.controllers[p] == Based(StoredBase(s.storage)) && CapturesEmpty(s)
    ensures Fragment(acts, states) && states[0] == s
    ensures acts == [CaptureTree(p, head, map[]), UploadArchive(p), UploadManifest(p)]
    ensures PublishedBy(s, states[3], p, ManifestFor(s, head)) && states[1].calls == s.calls
  {
    var a, b, c := CaptureTree(p, head, map[]), UploadArchive(p), UploadManifest(p);
    Captures(s, p, head);
    var s1 := SyncApply(s, a);
    UploadsArchive(s1, p);
    var s2 := SyncApply(s1, b);
    UploadsManifest(s2, p);
    var s3 := SyncApply(s2, c);
    One(s, a, s1);
    One(s1, b, s2);
    One(s2, c, s3);
    Three(s, a, s1, b, s2, c, s3);
    acts, states := [a, b, c], [s, s1, s2, s3];
  }

  /** From a free lock to a published source, in a directory without records. */
  lemma Syncs6(s: State, p: Pid, site: Site, head: string) returns (acts: seq<Action>, states: seq<State>)
    requires Free(s, p, site) && CapturesEmpty(s)
    ensures Fragment(acts, states) && states[0] == s
    ensures acts == [Acquire(p, site), ScanDone(p), ReadBase(p)] + [CaptureTree(p, head, map[]), UploadArchive(p), UploadManifest(p)]
    ensures |states| == 7 && states[4].calls == s.calls
    ensures PublishedBy(In(s, p, site), states[6], p, ManifestFor(s, head))
  {
    var first, before := Entered(s, p, site);
    var more, after := Publishes(before[3], p, head);
    Append(first, before, more, after);
    acts, states := first + more, before + after[1..];
    assert states[|first| + 1] == after[1] && states[|first| + 3] == after[3];
    SameManifest(s, before[3], head);
    PublishedFrom(In(s, p, site), before[3], states[6], p, ManifestFor(s, head));
  }

  function In(s: State, p: Pid, site: Site): State {
    s.(lock := Some(p), sites := s.sites[p := site])
  }

  lemma SameManifest(s: State, s': State, head: string)
    requires s'.storage == s.storage
    ensures ManifestFor(s', head) == ManifestFor(s, head)
  {
  }

  lemma PublishedFrom(s: State, entered: State, s': State, p: Pid, m: Manifest)
    requires SameJobsAndLock(s, entered) && entered.controllers == s.controllers[p := Based(StoredBase(s.storage))]
    requires PublishedBy(entered, s', p, m)
    ensures PublishedBy(s, s', p, m)
  {
    assert s.controllers[p := Based(StoredBase(s.storage))][p := Published(m)] == s.controllers[p := Published(m)];
  }

  /** The controller has prepared job `j`. */
  predicate PreparedBy(s: State, s': State, p: Pid, j: JobId)
    requires p in s.sites && MANIFEST_PATH in s.storage
  {
    && s'.lock == s.lock && s'.sites == s.sites && s'.controllers == s.controllers[p := Opened(j)] && s'.calls == s.calls
    && s'.homes == s.homes[j := s.sites[p].dir] && s'.requests == s.requests[j := Sha256(s.storage[MANIFEST_PATH])]
    && s'.storage == s.storage && s'.captures == s.captures
  }

  lemma Prepares(s: State, p: Pid, j: JobId) returns (acts: seq<Action>, states: seq<State>)
    requires At(s, p) && s.controllers[p].Published? && MANIFEST_PATH in s.storage && j !in s.records && j !in s.calls
    ensures Fragment(acts, states) && states[0] == s && acts == [Prepare(p, j), Open(p)]
    ensures PreparedBy(s, states[2], p, j)
  {
    var s1 := JobApply(s, Prepare(p, j));
    var s2 := JobApply(s1, Open(p));
    acts, states := [Prepare(p, j), Open(p)], [s, s1, s2];
    assert Steps(states, acts, 0) && Steps(states, acts, 1);
    assert s2.controllers == s.controllers[p := Opened(j)];
  }

  /** The worker is submitted, and its controller is gone. */
  predicate Abandoned(s: State, s': State, p: Pid, j: JobId) {
    && s'.lock == None && s'.controllers == s.controllers - {p} && s'.calls == s.calls[j := Requested]
    && s'.homes == s.homes && s'.requests == s.requests && s'.storage == s.storage && s'.captures == s.captures
  }

  lemma SpawnsAndDies(s: State, p: Pid, j: JobId) returns (acts: seq<Action>, states: seq<State>)
    requires At(s, p) && s.controllers[p] == Opened(j)
    ensures Fragment(acts, states) && states[0] == s && acts == [RecordSubmitting(p), Spawn(p), Kill(p)]
    ensures Abandoned(s, states[3], p, j)
  {
    var s1 := JobApply(s, RecordSubmitting(p));
    var s2 := JobApply(s1, Spawn(p));
    var s3 := SyncApply(s2, Kill(p));
    One(s, RecordSubmitting(p), s1);
    One(s1, Spawn(p), s2);
    One(s2, Kill(p), s3);
    Three(s, RecordSubmitting(p), s1, Spawn(p), s2, Kill(p), s3);
    acts, states := [RecordSubmitting(p), Spawn(p), Kill(p)], [s, s1, s2, s3];
    assert s3.controllers == s.controllers - {p};
  }

  /** All controllers run at these places. */
  predicate Sites(acts: seq<Action>, sites: set<Site>) {
    forall i | 0 <= i < |acts| && acts[i].Acquire? :: acts[i].site in sites
  }

  lemma SitesAppend(a: seq<Action>, b: seq<Action>, sites: set<Site>)
    requires Sites(a, sites) && Sites(b, sites)
    ensures Sites(a + b, sites)
  {
  }

  /** A worker of directory `d` is live, its controller is gone, and its request names one captured source. */
  predicate Orphaned(s: State, d: Dir) {
    && s.lock == None && s.controllers == map[] && Busy(s, 0) && CapturesEmpty(s)
    && (forall j | j in s.homes :: s.homes[j] == d)
    && 0 in s.requests && s.requests[0] == Sha256(Json(ManifestFor(INITIAL, "one")))
  }

  lemma FirstPrepared(site: Site) returns (acts: seq<Action>, states: seq<State>)
    ensures IsRun(acts, states) && Sites(acts, {site})
    ensures var s := states[|acts|];
            && At(s, 0) && s.controllers == map[0 := Opened(0)] && CapturesEmpty(s) && s.homes == map[0 := site.dir]
            && 0 in s.requests && s.requests[0] == Sha256(Json(ManifestFor(INITIAL, "one")))
  {
    var a, s := Syncs6(INITIAL, 0, site, "one");
    var b, t := Prepares(s[6], 0, 0);
    Append(a, s, b, t);
    SitesAppend(a, b, {site});
    acts, states := a + b, s + t[1..];
    assert t[2].controllers == map[0 := Opened(0)];
  }

  /** The first checkout publishes, submits a worker and dies. */
  lemma FirstCheckout(site: Site) returns (acts: seq<Action>, states: seq<State>)
    ensures IsRun(acts, states) && Sites(acts, {site}) && Orphaned(states[|acts|], site.dir)
  {
    var a, s := FirstPrepared(site);
    var b, t := SpawnsAndDies(s[|a|], 0, 0);
    Append(a, s, b, t);
    SitesAppend(a, b, {site});
    acts, states := a + b, s + t[1..];
    assert t[3].controllers == map[];
  }

  /** The second finds no record in its own directory, uploads, and leaves the worker with another source. */
  lemma SecondCheckout(s: State, d: Dir, site: Site) returns (acts: seq<Action>, states: seq<State>)
    requires Orphaned(s, d) && site.dir != d
    ensures Fragment(acts, states) && states[0] == s && |acts| == 6 && Sites(acts, {site})
    ensures RemoteFence.Uploads(acts[4]) && Busy(states[4], 0) && Busy(states[6], 0) && 0 in states[6].requests
    ensures forall worker :: !Acceptable(states[6].storage, states[6].requests[0], worker)
  {
    assert RecordsIn(s, site.dir) == {};
    acts, states := Syncs6(s, 1, site, "two");
    OtherManifest(s);
    Refused(states[6], ManifestFor(INITIAL, "one"));
  }

  /** Whenever two record directories are in use there is a run in which one controller uploads while the other's
      worker is live, and after which that worker finds a source its request does not name. Sharing one directory
      is therefore exactly what the fence needs. */
  lemma Unfenced(one: Site, two: Site) returns (acts: seq<Action>, states: seq<State>, i: nat, j: JobId)
    requires one.dir != two.dir
    ensures IsRun(acts, states) && Sites(acts, {one, two})
    ensures i < |acts| && RemoteFence.Uploads(acts[i]) && Busy(states[i], j)
    ensures Busy(states[|acts|], j) && j in states[|acts|].requests
    ensures forall worker :: !Acceptable(states[|acts|].storage, states[|acts|].requests[j], worker)
  {
    var a, s := FirstCheckout(one);
    var b, t := SecondCheckout(s[|a|], one.dir, two);
    Append(a, s, b, t);
    SitesAppend(a, b, {one, two});
    acts, states, i, j := a + b, s + t[1..], |a| + 4, 0;
    assert states[|a| + 4] == t[4] && acts[|a| + 4] == b[4];
  }

  lemma OtherManifest(s: State)
    ensures ManifestFor(INITIAL, "one") != ManifestFor(s, "two")
  {
    assert "one"[0] != "two"[0];
    assert ManifestFor(INITIAL, "one").head == "one" && ManifestFor(s, "two").head == "two";
  }

  lemma Refused(s: State, m: Manifest)
    requires MANIFEST_PATH in s.storage && s.storage[MANIFEST_PATH].Json? && s.storage[MANIFEST_PATH].manifest != m
    ensures forall worker :: !Acceptable(s.storage, Sha256(Json(m)), worker)
  {
  }
}
