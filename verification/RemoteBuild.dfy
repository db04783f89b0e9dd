/** The remote build protocol (`scripts/modal_build.py`, `scripts/modal_source_sync.py`) as a
    transition system: controllers under the build lock, lock-free `status` processes, durable job
    records, remote storage and remote workers.

    Every durable write of a record (temporary file, fsync, rename) and every batch upload is one
    step. A controller may raise or be killed between any two steps; a kill loses everything but
    durable records, storage and workers, and frees the lock.

    The lock is one file for all checkouts of a host; a controller's records stand in the directory its
    own environment and checkout give. */
module RemoteBuild {
  import opened Wrappers
  import opened Links
  import opened SourceTree
  import opened Materialize

  type JobId = nat
  type Pid = nat
  type Dir = nat

  /** Where a controller runs: the checkout it captures, and the directory of its job records. */
  datatype Site = Site(root: Path, dir: Dir)

  /** A captured tree and the checkout it was captured in. */
  datatype Origin = Origin(root: Path, tree: Tree)

  datatype Phase = NotStarted | Submitting | Running | Completed | Failed | Unresolved

  /** `state.json`: the phase, and whether `function_call_id` is recorded. */
  datatype Record = Record(phase: Phase, call: bool)

  /** A terminal remote result: a value, or a remote error or timeout. */
  datatype Outcome = Returned | Errored

  /** A remote call: submitted but not yet started, executing, or over. */
  datatype Call = Requested | Live | Ended(outcome: Outcome)

  /** Where a controller stands in `run`, with its volatile data. */
  datatype Pc =
    | Scanning(todo: set<JobId>)
    | Syncing
    | Based(baseline: Option<Manifest>)
    | Holding(baseline: Option<Manifest>, m: Manifest)
    | Uploaded(m: Manifest)
    | Published(m: Manifest)
    | Prepared(job: JobId)
    | Opened(job: JobId)
    | Submitted(job: JobId)
    | Spawning(job: JobId)
    | Spawned(job: JobId)
    | Polling(job: JobId)
    | Fetched(job: JobId)
    | Closing(job: JobId)
    | Failing(job: JobId, known: bool)
    | Leaving

  /** Where a `status` process stands: it has read a record, or also a terminal result. */
  datatype Query = Read(job: JobId, rec: Record) | Answered(job: JobId, rec: Record, outcome: Outcome)

  datatype State = State(
    lock: Option<Pid>,
    controllers: map<Pid, Pc>,
    sites: map<Pid, Site>,
    queries: map<Pid, Query>,
    records: map<JobId, Record>,
    homes: map<JobId, Dir>,          // the directory each record stands in
    requests: map<JobId, Digest>,
    calls: map<JobId, Call>,
    storage: Storage,
    captures: map<Manifest, Origin>) // history: every manifest ever captured, and where first

  datatype Action =
    | Acquire(p: Pid, site: Site) | Scan(p: Pid, j: JobId) | ScanDone(p: Pid)
    | ReadBase(p: Pid) | CaptureTree(p: Pid, head: string, t: Tree)
    | UploadArchive(p: Pid) | UploadManifest(p: Pid) | Prepare(p: Pid, j: JobId)
    | Open(p: Pid) | RecordSubmitting(p: Pid) | Spawn(p: Pid) | SpawnReturns(p: Pid)
    | RecordRunning(p: Pid) | Fetch(p: Pid) | RecordCompleted(p: Pid) | Finish(p: Pid)
    | Raise(p: Pid) | RecordUnresolved(p: Pid) | Release(p: Pid) | Kill(p: Pid)
    | Start(j: JobId) | End(j: JobId, outcome: Outcome)
    | QueryRead(q: Pid, j: JobId) | QueryGet(q: Pid) | QueryWrite(q: Pid) | QueryDies(q: Pid)

  const INITIAL := State(None, map[], map[], map[], map[], map[], map[], map[], map[], map[])

  predicate UnsettledPhase(p: Phase) {
    p != Completed && p != Failed && p != NotStarted
  }

  function StoredBase(st: Storage): Option<Manifest> {
    if BASE_MANIFEST_PATH in st && st[BASE_MANIFEST_PATH].Json? then Some(st[BASE_MANIFEST_PATH].manifest) else None
  }

  // --- Steps -----------------------------------------------------------------------

  predicate At(s: State, p: Pid) { p in s.controllers && p in s.sites }

  predicate SyncEnabled(s: State, a: Action) {
    match a
    case Acquire(p, _) => s.lock.None? && p !in s.controllers
    case Scan(p, j) => At(s, p) && s.controllers[p].Scanning? && j in s.controllers[p].todo && j in s.records
    case ScanDone(p) => At(s, p) && s.controllers[p].Scanning? && s.controllers[p].todo == {}
    case ReadBase(p) => At(s, p) && s.controllers[p].Syncing?
    case CaptureTree(p, head, t) =>
      && At(s, p) && s.controllers[p].Based? && ListedByGit(t)
      && SourcePathsOk(s.sites[p].root, t) && DescribeTree(s.sites[p].root, t).Some?
    case UploadArchive(p) => At(s, p) && s.controllers[p].Holding? && s.controllers[p].m in s.captures
                             && s.captures[s.controllers[p].m].tree.Keys == s.controllers[p].m.files.Keys
    case UploadManifest(p) => At(s, p) && s.controllers[p].Uploaded?
    case Raise(p) => At(s, p)
    case Release(p) => At(s, p) && s.controllers[p].Leaving?
    case Kill(p) => At(s, p)
    case _ => false
  }

  predicate JobEnabled(s: State, a: Action) {
    match a
    case Prepare(p, j) =>
      At(s, p) && s.controllers[p].Published? && MANIFEST_PATH in s.storage && j !in s.records && j !in s.calls
    case Open(p) => At(s, p) && s.controllers[p].Prepared?
    case RecordSubmitting(p) => At(s, p) && s.controllers[p].Opened?
    case Spawn(p) => At(s, p) && s.controllers[p].Submitted?
    case SpawnReturns(p) => At(s, p) && s.controllers[p].Spawning?
    case RecordRunning(p) => At(s, p) && s.controllers[p].Spawned?
    case Fetch(p) => At(s, p) && s.controllers[p].Polling? && s.controllers[p].job in s.calls
                     && s.calls[s.controllers[p].job] == Ended(Returned)
    case RecordCompleted(p) => At(s, p) && s.controllers[p].Fetched?
    case Finish(p) => At(s, p) && s.controllers[p].Closing?
    case RecordUnresolved(p) => At(s, p) && s.controllers[p].Failing?
    case _ => false
  }

  predicate WorkerEnabled(s: State, a: Action) {
    match a
    case Start(j) => j in s.calls && s.calls[j] == Requested
    case End(j, _) => j in s.calls && s.calls[j] == Live
    case _ => false
  }

  predicate QueryEnabled(s: State, a: Action) {
    match a
    case QueryRead(q, j) =>
      q !in s.queries && j in s.records && s.records[j].call && s.records[j].phase != Completed
    case QueryGet(q) => q in s.queries && s.queries[q].Read? && s.queries[q].job in s.calls
                        && s.calls[s.queries[q].job].Ended?
    case QueryWrite(q) => q in s.queries && s.queries[q].Answered?
    case QueryDies(q) => q in s.queries
    case _ => false
  }

  predicate Enabled(s: State, a: Action) {
    SyncEnabled(s, a) || JobEnabled(s, a) || WorkerEnabled(s, a) || QueryEnabled(s, a)
  }

  /** An exception: `run` writes `unresolved` only from inside the `try`, once the local state has
      left `not_started`. */
  function AfterRaise(pc: Pc): Pc {
    match pc
    case Opened(j) => Failing(j, false)
    case Submitted(j) => Failing(j, false)
    case Spawning(j) => Failing(j, false)
    case Spawned(j) => Failing(j, true)
    case Polling(j) => Failing(j, true)
    case Fetched(j) => Failing(j, true)
    case Closing(j) => Failing(j, true)
    case _ => Leaving
  }

  function Goto(s: State, p: Pid, pc: Pc): State {
    s.(controllers := s.controllers[p := pc])
  }

  /** The controller is gone, and with it the lock. */
  function Leave(s: State, p: Pid): State {
    s.(lock := None, controllers := s.controllers - {p}, sites := s.sites - {p})
  }

  function Write(s: State, j: JobId, rec: Record): State {
    s.(records := s.records[j := rec])
  }

  function Destination(baseline: Option<Manifest>): string {
    if baseline.None? then BASE_SOURCE_PATH else SOURCE_PATH
  }

  function Uploads(s: State, baseline: Option<Manifest>, m: Manifest): Storage
    requires m in s.captures && s.captures[m].tree.Keys == m.files.Keys
  {
    var st := s.storage[Destination(baseline) := Tar(ArchiveOf(s.captures[m].tree, m.files, baseline))];
    if baseline.None? then st[BASE_MANIFEST_PATH := Json(m)] else st
  }

  /** The records a controller of this directory scans. */
  function RecordsIn(s: State, d: Dir): set<JobId> {
    set j | j in s.records && j in s.homes && s.homes[j] == d
  }

  function Recorded(captures: map<Manifest, Origin>, m: Manifest, o: Origin): map<Manifest, Origin> {
    if m in captures then captures else captures[m := o]
  }

  /** Steps of the controller up to the published source, and its ways out. */
  function SyncApply(s: State, a: Action): State
    requires SyncEnabled(s, a)
  {
    match a
    case Acquire(p, site) => Goto(s, p, Scanning(RecordsIn(s, site.dir))).(lock := Some(p), sites := s.sites[p := site])
    case Scan(p, j) =>
      if UnsettledPhase(s.records[j].phase) then Goto(s, p, Leaving)
      else Goto(s, p, Scanning(s.controllers[p].todo - {j}))
    case ScanDone(p) => Goto(s, p, Syncing)
    case ReadBase(p) => Goto(s, p, Based(StoredBase(s.storage)))
    case CaptureTree(p, head, t) =>
      var baseline := s.controllers[p].baseline;
      var m := ManifestOf(head, t, DescribeTree(s.sites[p].root, t).value, baseline);
      Goto(s, p, Holding(baseline, m)).(captures := Recorded(s.captures, m, Origin(s.sites[p].root, t)))
    case UploadArchive(p) =>
      var Holding(baseline, m) := s.controllers[p];
      Goto(s, p, Uploaded(m)).(storage := Uploads(s, baseline, m))
    case UploadManifest(p) =>
      var m := s.controllers[p].m;
      Goto(s, p, Published(m)).(storage := s.storage[MANIFEST_PATH := Json(m)])
    case Raise(p) => Goto(s, p, AfterRaise(s.controllers[p]))
    case Release(p) => Leave(s, p)
    case Kill(p) => Leave(s, p)
  }

  /** Steps of the controller with its own job, from its record to its result. */
  function JobApply(s: State, a: Action): State
    requires JobEnabled(s, a)
  {
    match a
    case Prepare(p, j) =>
      Write(Goto(s, p, Prepared(j)), j, Record(NotStarted, false))
        .(requests := s.requests[j := Sha256(s.storage[MANIFEST_PATH])], homes := s.homes[j := s.sites[p].dir])
    case Open(p) => Goto(s, p, Opened(s.controllers[p].job))
    case RecordSubmitting(p) =>
      Write(Goto(s, p, Submitted(s.controllers[p].job)), s.controllers[p].job, Record(Submitting, false))
    case Spawn(p) =>
      Goto(s, p, Spawning(s.controllers[p].job)).(calls := s.calls[s.controllers[p].job := Requested])
    case SpawnReturns(p) => Goto(s, p, Spawned(s.controllers[p].job))
    case RecordRunning(p) =>
      Write(Goto(s, p, Polling(s.controllers[p].job)), s.controllers[p].job, Record(Running, true))
    case Fetch(p) => Goto(s, p, Fetched(s.controllers[p].job))
    case RecordCompleted(p) =>
      Write(Goto(s, p, Closing(s.controllers[p].job)), s.controllers[p].job, Record(Completed, true))
    case Finish(p) => Goto(s, p, Leaving)
    case RecordUnresolved(p) =>
      var Failing(j, known) := s.controllers[p];
      Write(Goto(s, p, Leaving), j, Record(Unresolved, known))
  }

  /** Steps of the remote worker. */
  function WorkerApply(s: State, a: Action): State
    requires WorkerEnabled(s, a)
  {
    match a
    case Start(j) => s.(calls := s.calls[j := Live])
    case End(j, outcome) => s.(calls := s.calls[j := Ended(outcome)])
  }

  /** Steps of a lock-free `status` process. */
  function QueryApply(s: State, a: Action): State
    requires QueryEnabled(s, a)
  {
    match a
    case QueryRead(q, j) => s.(queries := s.queries[q := Read(j, s.records[j])])
    case QueryGet(q) =>
      var Read(j, rec) := s.queries[q];
      s.(queries := s.queries[q := Answered(j, rec, s.calls[j].outcome)])
    case QueryWrite(q) =>
      var Answered(j, rec, outcome) := s.queries[q];
      Write(s.(queries := s.queries - {q}), j,
            rec.(phase := if outcome == Returned then Completed else Failed))
    case QueryDies(q) => s.(queries := s.queries - {q})
  }

  function Apply(s: State, a: Action): State
    requires Enabled(s, a)
  {
    if SyncEnabled(s, a) then SyncApply(s, a)
    else if JobEnabled(s, a) then JobApply(s, a)
    else if WorkerEnabled(s, a) then WorkerApply(s, a)
    else QueryApply(s, a)
  }

  /** A run from the initial state. */
  ghost predicate IsRun(acts: seq<Action>, states: seq<State>) {
    && |states| == |acts| + 1 && states[0] == INITIAL
    && forall i {:trigger Steps(states, acts, i)} | 0 <= i < |acts| :: Steps(states, acts, i)
  }

  ghost predicate Steps(states: seq<State>, acts: seq<Action>, i: nat)
    requires i < |acts| && i + 1 < |states|
  {
    Enabled(states[i], acts[i]) && states[i + 1] == Apply(states[i], acts[i])
  }

  // --- Jobs --------------------------------------------------------------------------

  predicate Busy(s: State, j: JobId) {
    j in s.calls && (s.calls[j] == Requested || s.calls[j] == Live)
  }

  predicate Unsettled(s: State, j: JobId) {
    j in s.records && UnsettledPhase(s.records[j].phase)
  }

  predicate HomeIs(s: State, j: JobId, d: Dir) {
    j in s.homes && s.homes[j] == d
  }

  /** The lock is exclusive: the holder is the only controller there is. */
  predicate LockInv(s: State) {
    && (forall p | p in s.controllers :: s.lock == Some(p) && p in s.sites)
    && (s.lock.Some? ==> s.lock.value in s.controllers)
  }
}
