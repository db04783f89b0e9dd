/** The fence of the remote build protocol: in every reachable state a live worker is announced by an unsettled
    record, and nobody publishes past such a record of his own directory. */
module RemoteFence {
  import opened RemoteBuild

  /** No record of the directory but `j` is unsettled. */
  ghost predicate OnlyUnsettled(s: State, d: Dir, j: JobId) {
    forall k | HomeIs(s, k, d) && k != j :: !Unsettled(s, k)
  }

  ghost predicate SettledIn(s: State, d: Dir) {
    forall k | HomeIs(s, k, d) :: !Unsettled(s, k)
  }

  ghost predicate JobInv(s: State, j: JobId)
    requires j in s.records
  {
    var rec := s.records[j];
    && (Busy(s, j) ==> UnsettledPhase(rec.phase))
    && (rec.phase == NotStarted ==> j !in s.calls)
    && (rec.phase == Completed ==> j in s.calls && s.calls[j] == Ended(Returned))
    && (rec.phase == Failed ==> j in s.calls && s.calls[j] == Ended(Errored))
    && (rec.call ==> j in s.calls)
  }

  ghost predicate QueryInv(s: State, q: Query) {
    && q.job in s.records && q.job in s.calls && q.rec.call && s.records[q.job].call
    && (q.Answered? ==> s.calls[q.job] == Ended(q.outcome))
  }

  /** What a controller that works in directory `d` may rely on. */
  ghost predicate PcInv(s: State, d: Dir, pc: Pc) {
    match pc
    case Scanning(todo) => todo <= s.records.Keys && forall k | HomeIs(s, k, d) && k !in todo :: !Unsettled(s, k)
    case Syncing => SettledIn(s, d)
    case Based(_) => SettledIn(s, d)
    case Holding(_, _) => SettledIn(s, d)
    case Uploaded(_) => SettledIn(s, d)
    case Published(_) => SettledIn(s, d)
    case Prepared(j) => SettledIn(s, d) && Own(s, d, j) && s.records[j] == Record(NotStarted, false)
    case Opened(j) => SettledIn(s, d) && Own(s, d, j) && s.records[j] == Record(NotStarted, false)
    case Submitted(j) => OnlyUnsettled(s, d, j) && Own(s, d, j) && s.records[j] == Record(Submitting, false) && j !in s.calls
    case Spawning(j) => OnlyUnsettled(s, d, j) && Own(s, d, j) && s.records[j] == Record(Submitting, false) && j in s.calls
    case Spawned(j) => OnlyUnsettled(s, d, j) && Own(s, d, j) && s.records[j] == Record(Submitting, false) && j in s.calls
    case Polling(j) => OnlyUnsettled(s, d, j) && Own(s, d, j) && j in s.calls
    case Fetched(j) => OnlyUnsettled(s, d, j) && Own(s, d, j) && j in s.calls && s.calls[j] == Ended(Returned)
    case Closing(j) => OnlyUnsettled(s, d, j) && Own(s, d, j) && j in s.calls && s.calls[j] == Ended(Returned)
    case Failing(j, known) => OnlyUnsettled(s, d, j) && Own(s, d, j) && (known ==> j in s.calls)
                              && (!known ==> !s.records[j].call)
    case Leaving => true
  }

  /** A record of the directory. */
  ghost predicate Own(s: State, d: Dir, j: JobId) {
    j in s.records && HomeIs(s, j, d)
  }

  ghost predicate PcsInv(s: State) {
    forall p | p in s.controllers :: p in s.sites && PcInv(s, s.sites[p].dir, s.controllers[p])
  }

  ghost predicate FenceInv(s: State) {
    && LockInv(s)
    && s.homes.Keys == s.records.Keys && s.calls.Keys <= s.records.Keys
    && (forall j | j in s.records :: JobInv(s, j))
    && OnePerDirectory(s)
    && (forall q | q in s.queries :: QueryInv(s, s.queries[q]))
    && PcsInv(s)
  }

  ghost predicate OnePerDirectory(s: State) {
    forall j, k | Unsettled(s, j) && Unsettled(s, k) && j in s.homes && k in s.homes && s.homes[j] == s.homes[k] :: j == k
  }

  /** Job facts read nothing but records, their directories and calls. */
  ghost predicate SameJobs(s: State, s': State) {
    s'.records == s.records && s'.homes == s.homes && s'.calls == s.calls
  }

  lemma PcFrame(s: State, s': State, d: Dir, pc: Pc)
    requires SameJobs(s, s') && PcInv(s, d, pc)
    ensures PcInv(s', d, pc)
  {
    assert forall k :: Unsettled(s', k) == Unsettled(s, k) && HomeIs(s', k, d) == HomeIs(s, k, d);
  }

  lemma JobsFrame(s: State, s': State)
    requires SameJobs(s, s') && FenceInv(s) && LockInv(s')
    requires forall p | p in s'.controllers :: p in s'.sites && PcInv(s, s'.sites[p].dir, s'.controllers[p])
    requires forall q | q in s'.queries :: QueryInv(s, s'.queries[q])
    ensures FenceInv(s')
  {
    assert forall k :: Unsettled(s', k) == Unsettled(s, k) && Busy(s', k) == Busy(s, k);
    forall p | p in s'.controllers ensures PcInv(s', s'.sites[p].dir, s'.controllers[p]) {
      PcFrame(s, s', s'.sites[p].dir, s'.controllers[p]);
    }
  }

  lemma MoveStep(s: State, s': State, p: Pid)
    requires FenceInv(s) && p in s.controllers && SameJobs(s, s') && s'.lock == s.lock && s'.queries == s.queries
    requires s'.sites == s.sites && p in s'.controllers && s'.controllers == s.controllers[p := s'.controllers[p]]
    requires PcInv(s, s.sites[p].dir, s'.controllers[p])
    ensures FenceInv(s')
  {
    JobsFrame(s, s');
  }

  lemma GotoStep(s: State, p: Pid, pc: Pc)
    requires FenceInv(s) && p in s.controllers && PcInv(s, s.sites[p].dir, pc)
    ensures FenceInv(Goto(s, p, pc))
  {
    MoveStep(s, Goto(s, p, pc), p);
  }

  lemma RaiseKeepsPc(s: State, d: Dir, pc: Pc)
    requires PcInv(s, d, pc)
    ensures PcInv(s, d, AfterRaise(pc))
  {
  }

  lemma RaiseStep(s: State, a: Action)
    requires FenceInv(s) && SyncEnabled(s, a) && a.Raise?
    ensures FenceInv(SyncApply(s, a))
  {
    assert PcInv(s, s.sites[a.p].dir, s.controllers[a.p]);
    RaiseKeepsPc(s, s.sites[a.p].dir, s.controllers[a.p]);
    MoveStep(s, SyncApply(s, a), a.p);
  }

  lemma ScanPc(s: State, d: Dir, todo: set<JobId>, j: JobId)
    requires PcInv(s, d, Scanning(todo))
    ensures todo == {} ==> SettledIn(s, d)
    ensures j in s.records && !UnsettledPhase(s.records[j].phase) ==> PcInv(s, d, Scanning(todo - {j}))
  {
  }

  lemma ScanStep(s: State, a: Action)
    requires FenceInv(s) && SyncEnabled(s, a) && a.Scan?
    ensures FenceInv(SyncApply(s, a))
  {
    var d, todo := s.sites[a.p].dir, s.controllers[a.p].todo;
    assert PcInv(s, d, Scanning(todo));
    if UnsettledPhase(s.records[a.j].phase) {
      GotoStep(s, a.p, Leaving);
    } else {
      ScanPc(s, d, todo, a.j);
      GotoStep(s, a.p, Scanning(todo - {a.j}));
    }
  }

  lemma ScanDoneStep(s: State, a: Action)
    requires FenceInv(s) && SyncEnabled(s, a) && a.ScanDone?
    ensures FenceInv(SyncApply(s, a))
  {
    assert PcInv(s, s.sites[a.p].dir, s.controllers[a.p]);
    ScanPc(s, s.sites[a.p].dir, {}, 0);
    MoveStep(s, SyncApply(s, a), a.p);
  }

  lemma AdvanceSpawn(s: State, a: Action)
    requires FenceInv(s) && JobEnabled(s, a) && (a.Open? || a.SpawnReturns?)
    ensures FenceInv(JobApply(s, a))
  {
    assert PcInv(s, s.sites[a.p].dir, s.controllers[a.p]);
    MoveStep(s, JobApply(s, a), a.p);
  }

  lemma AdvanceResult(s: State, a: Action)
    requires FenceInv(s) && JobEnabled(s, a) && (a.Fetch? || a.Finish?)
    ensures FenceInv(JobApply(s, a))
  {
    assert PcInv(s, s.sites[a.p].dir, s.controllers[a.p]);
    if a.Fetch? {
      GotoStep(s, a.p, Fetched(s.controllers[a.p].job));
    } else {
      GotoStep(s, a.p, Leaving);
    }
  }

  lemma AdvanceStep(s: State, a: Action)
    requires FenceInv(s) && JobEnabled(s, a) && (a.Open? || a.SpawnReturns? || a.Fetch? || a.Finish?)
    ensures FenceInv(JobApply(s, a))
  {
    if a.Open? || a.SpawnReturns? {
      AdvanceSpawn(s, a);
    } else {
      AdvanceResult(s, a);
    }
  }

  ghost predicate Syncs(a: Action) {
    a.ReadBase? || a.CaptureTree? || a.UploadArchive? || a.UploadManifest?
  }

  lemma SyncStep(s: State, a: Action)
    requires FenceInv(s) && SyncEnabled(s, a) && Syncs(a)
    ensures FenceInv(SyncApply(s, a)) && SettledIn(s, s.sites[a.p].dir)
  {
    assert PcInv(s, s.sites[a.p].dir, s.controllers[a.p]);
    MoveStep(s, SyncApply(s, a), a.p);
  }

  lemma LockStep(s: State, a: Action)
    requires FenceInv(s) && SyncEnabled(s, a) && (a.Acquire? || a.Release? || a.Kill?)
    ensures FenceInv(SyncApply(s, a))
  {
    JobsFrame(s, SyncApply(s, a));
  }

  /** The lock holder `p` changes the record and the call of its own job `j`. */
  lemma OwnJobStep(s: State, s': State, p: Pid, j: JobId)
    requires FenceInv(s) && p in s.controllers && OwnChange(s, s', p, j) && OnlyUnsettled(s, s.sites[p].dir, j)
    requires JobInv(s', j) && PcInv(s', s.sites[p].dir, s'.controllers[p])
    ensures FenceInv(s')
  {
    assert s.controllers.Keys == {p};
    forall k | k in s'.records && k != j ensures JobInv(s', k) && Unsettled(s', k) == Unsettled(s, k) {
      assert JobInv(s, k);
    }
    forall q | q in s'.queries ensures QueryInv(s', s'.queries[q]) {
      assert QueryInv(s, s.queries[q]);
    }
  }

  /** Nothing changes but the controller's own place, its job's record and its job's call. */
  ghost predicate OwnChange(s: State, s': State, p: Pid, j: JobId)
    requires p in s.sites
  {
    && s'.lock == s.lock && s'.sites == s.sites && s'.queries == s.queries
    && p in s'.controllers && s'.controllers == s.controllers[p := s'.controllers[p]]
    && j in s'.records && s'.records == s.records[j := s'.records[j]]
    && (j in s.records ==> HomeIs(s, j, s.sites[p].dir) && (s.records[j].call ==> s'.records[j].call))
    && s'.homes == s.homes[j := s.sites[p].dir]
    && (s'.calls == s.calls || (j !in s.calls && s'.calls == s.calls[j := Requested]))
  }

  /** Then the other records of the directory are as settled as before. */
  lemma OwnOthers(s: State, s': State, p: Pid, j: JobId)
    requires p in s.sites && OwnChange(s, s', p, j) && OnlyUnsettled(s, s.sites[p].dir, j)
    ensures OnlyUnsettled(s', s.sites[p].dir, j) && Own(s', s.sites[p].dir, j)
    ensures !Unsettled(s', j) ==> SettledIn(s', s.sites[p].dir)
  {
    var d := s.sites[p].dir;
    forall k | HomeIs(s', k, d) && k != j ensures !Unsettled(s', k) {
      assert HomeIs(s, k, d) && Unsettled(s', k) == Unsettled(s, k);
    }
  }

  lemma OwnHome(s: State, p: Pid, j: JobId)
    requires p in s.sites
    ensures HomeIs(s, j, s.sites[p].dir) ==> s.homes[j := s.sites[p].dir] == s.homes
    ensures j in s.records ==> s.records[j := s.records[j]] == s.records
  {
  }

  lemma PrepareStep(s: State, a: Action)
    requires FenceInv(s) && JobEnabled(s, a) && a.Prepare?
    ensures FenceInv(JobApply(s, a))
  {
    var j, s' := a.j, JobApply(s, a);
    assert PcInv(s, s.sites[a.p].dir, s.controllers[a.p]);
    OwnHome(s, a.p, j);
    OwnOthers(s, s', a.p, j);
    OwnJobStep(s, s', a.p, j);
  }

  lemma SubmittingStep(s: State, a: Action)
    requires FenceInv(s) && JobEnabled(s, a) && a.RecordSubmitting?
    ensures FenceInv(JobApply(s, a))
  {
    var j, s' := s.controllers[a.p].job, JobApply(s, a);
    assert PcInv(s, s.sites[a.p].dir, s.controllers[a.p]) && JobInv(s, j);
    OwnHome(s, a.p, j);
    OwnOthers(s, s', a.p, j);
    OwnJobStep(s, s', a.p, j);
  }

  lemma SpawnStep(s: State, a: Action)
    requires FenceInv(s) && JobEnabled(s, a) && a.Spawn?
    ensures FenceInv(JobApply(s, a))
  {
    var j, s' := s.controllers[a.p].job, JobApply(s, a);
    assert PcInv(s, s.sites[a.p].dir, s.controllers[a.p]) && JobInv(s, j);
    OwnHome(s, a.p, j);
    OwnOthers(s, s', a.p, j);
    OwnJobStep(s, s', a.p, j);
  }

  lemma RunningStep(s: State, a: Action)
    requires FenceInv(s) && JobEnabled(s, a) && a.RecordRunning?
    ensures FenceInv(JobApply(s, a))
  {
    var j, s' := s.controllers[a.p].job, JobApply(s, a);
    assert PcInv(s, s.sites[a.p].dir, s.controllers[a.p]) && JobInv(s, j);
    OwnHome(s, a.p, j);
    OwnOthers(s, s', a.p, j);
    OwnJobStep(s, s', a.p, j);
  }

  lemma CompletedStep(s: State, a: Action)
    requires FenceInv(s) && JobEnabled(s, a) && a.RecordCompleted?
    ensures FenceInv(JobApply(s, a))
  {
    var j, s' := s.controllers[a.p].job, JobApply(s, a);
    assert PcInv(s, s.sites[a.p].dir, s.controllers[a.p]) && JobInv(s, j);
    OwnHome(s, a.p, j);
    OwnOthers(s, s', a.p, j);
    OwnJobStep(s, s', a.p, j);
  }

  lemma UnresolvedStep(s: State, a: Action)
    requires FenceInv(s) && JobEnabled(s, a) && a.RecordUnresolved?
    ensures FenceInv(JobApply(s, a))
  {
    var j, s' := s.controllers[a.p].job, JobApply(s, a);
    assert PcInv(s, s.sites[a.p].dir, s.controllers[a.p]) && JobInv(s, j);
    OwnHome(s, a.p, j);
    OwnOthers(s, s', a.p, j);
    OwnJobStep(s, s', a.p, j);
  }

  lemma CallJob(s: State, a: Action, k: JobId)
    requires FenceInv(s) && WorkerEnabled(s, a) && (a.Start? || a.End?) && k in s.records
    ensures JobInv(WorkerApply(s, a), k)
  {
    assert JobInv(s, k);
    assert a.j in s.records ==> JobInv(s, a.j);
  }

  lemma CallPc(s: State, a: Action, p: Pid)
    requires FenceInv(s) && WorkerEnabled(s, a) && (a.Start? || a.End?) && p in s.controllers
    ensures PcInv(WorkerApply(s, a), s.sites[p].dir, s.controllers[p])
  {
    var s' := WorkerApply(s, a);
    assert forall k :: Unsettled(s', k) == Unsettled(s, k);
    assert PcInv(s, s.sites[p].dir, s.controllers[p]);
  }

  lemma CallStep(s: State, a: Action)
    requires FenceInv(s) && WorkerEnabled(s, a) && (a.Start? || a.End?)
    ensures FenceInv(WorkerApply(s, a))
  {
    var s' := WorkerApply(s, a);
    forall k | k in s'.records ensures JobInv(s', k) {
      CallJob(s, a, k);
    }
    forall p | p in s'.controllers ensures PcInv(s', s'.sites[p].dir, s'.controllers[p]) {
      CallPc(s, a, p);
    }
    CallQueries(s, a);
  }

  lemma CallQueries(s: State, a: Action)
    requires FenceInv(s) && WorkerEnabled(s, a) && (a.Start? || a.End?)
    ensures forall q | q in s.queries :: QueryInv(WorkerApply(s, a), s.queries[q])
    ensures OnePerDirectory(WorkerApply(s, a)) && a.j in s.records
  {
    var s' := WorkerApply(s, a);
    assert forall k :: Unsettled(s', k) == Unsettled(s, k);
    forall q | q in s.queries ensures QueryInv(s', s.queries[q]) {
      assert QueryInv(s, s.queries[q]);
    }
  }

  lemma QueryStep(s: State, a: Action)
    requires FenceInv(s) && QueryEnabled(s, a) && (a.QueryRead? || a.QueryGet? || a.QueryDies?)
    ensures FenceInv(QueryApply(s, a))
  {
    var s' := QueryApply(s, a);
    if a.QueryRead? {
      assert JobInv(s, a.j);
      assert QueryInv(s, s'.queries[a.q]);
    } else {
      assert QueryInv(s, s.queries[a.q]);
    }
    JobsFrame(s, s');
  }

  /** `status` writes a settled phase for a call that is over, so it settles records and never
      unsettles one, whatever the controllers do meanwhile. */
  lemma QueryWriteJob(s: State, a: Action, k: JobId)
    requires FenceInv(s) && QueryEnabled(s, a) && a.QueryWrite? && k in s.records
    ensures JobInv(QueryApply(s, a), k)
  {
    assert QueryInv(s, s.queries[a.q]) && JobInv(s, k);
  }

  lemma QueryWriteSettles(s: State, a: Action)
    requires FenceInv(s) && QueryEnabled(s, a) && a.QueryWrite?
    ensures s.queries[a.q].job in s.records && QueryApply(s, a).records.Keys == s.records.Keys
    ensures forall k :: Unsettled(QueryApply(s, a), k) ==> Unsettled(s, k)
  {
    var s', j := QueryApply(s, a), s.queries[a.q].job;
    assert QueryInv(s, s.queries[a.q]);
    assert s'.records == s.records[j := s'.records[j]] && !UnsettledPhase(s'.records[j].phase);
  }

  /** To settle a record that names its call disturbs no controller. */
  lemma SettlesPc(s: State, s': State, d: Dir, pc: Pc, j: JobId)
    requires j in s.records && s.records[j].call && PcInv(s, d, pc)
    requires j in s'.records && s'.records[j].call && !UnsettledPhase(s'.records[j].phase)
    requires s'.records == s.records[j := s'.records[j]] && s'.homes == s.homes && s'.calls == s.calls
    ensures PcInv(s', d, pc)
  {
    assert forall k :: HomeIs(s', k, d) == HomeIs(s, k, d);
    assert forall k | Unsettled(s', k) :: Unsettled(s, k);
  }

  lemma QueryWritePc(s: State, a: Action, p: Pid)
    requires FenceInv(s) && QueryEnabled(s, a) && a.QueryWrite? && p in s.controllers
    ensures PcInv(QueryApply(s, a), s.sites[p].dir, s.controllers[p])
  {
    QueryWriteSettles(s, a);
    assert QueryInv(s, s.queries[a.q]) && PcInv(s, s.sites[p].dir, s.controllers[p]);
    SettlesPc(s, QueryApply(s, a), s.sites[p].dir, s.controllers[p], s.queries[a.q].job);
  }

  lemma QueryWriteStep(s: State, a: Action)
    requires FenceInv(s) && QueryEnabled(s, a) && a.QueryWrite?
    ensures FenceInv(QueryApply(s, a))
  {
    var s' := QueryApply(s, a);
    QueryWriteSettles(s, a);
    forall k | k in s'.records ensures JobInv(s', k) {
      QueryWriteJob(s, a, k);
    }
    forall p | p in s'.controllers ensures PcInv(s', s'.sites[p].dir, s'.controllers[p]) {
      QueryWritePc(s, a, p);
    }
    forall r | r in s'.queries ensures QueryInv(s', s'.queries[r]) {
      assert QueryInv(s, s.queries[r]);
    }
  }

  lemma SyncFence(s: State, a: Action)
    requires FenceInv(s) && SyncEnabled(s, a)
    ensures FenceInv(SyncApply(s, a))
  {
    if a.Scan? { ScanStep(s, a); }
    else if a.ScanDone? { ScanDoneStep(s, a); }
    else if a.Raise? { RaiseStep(s, a); }
    else if Syncs(a) { SyncStep(s, a); }
    else { LockStep(s, a); }
  }

  lemma JobFence(s: State, a: Action)
    requires FenceInv(s) && JobEnabled(s, a)
    ensures FenceInv(JobApply(s, a))
  {
    if a.Prepare? { PrepareStep(s, a); }
    else if a.RecordSubmitting? { SubmittingStep(s, a); }
    else if a.Spawn? { SpawnStep(s, a); }
    else if a.RecordRunning? { RunningStep(s, a); }
    else if a.RecordCompleted? { CompletedStep(s, a); }
    else if a.RecordUnresolved? { UnresolvedStep(s, a); }
    else { AdvanceStep(s, a); }
  }

  /** Every step keeps the fence. */
  lemma FenceStep(s: State, a: Action)
    requires FenceInv(s) && Enabled(s, a)
    ensures FenceInv(Apply(s, a))
  {
    if SyncEnabled(s, a) { SyncFence(s, a); }
    else if JobEnabled(s, a) { JobFence(s, a); }
    else if WorkerEnabled(s, a) { CallStep(s, a); }
    else if a.QueryWrite? { QueryWriteStep(s, a); }
    else { QueryStep(s, a); }
  }

  // --- Whole runs -----------------------------------------------------------------------

  lemma {:induction false} RunFence(acts: seq<Action>, states: seq<State>, i: nat)
    requires IsRun(acts, states) && i < |states|
    ensures FenceInv(states[i])
  {
    if i > 0 {
      RunFence(acts, states, i - 1);
      FenceNext(acts, states, i - 1);
    }
  }

  lemma FenceNext(acts: seq<Action>, states: seq<State>, i: nat)
    requires IsRun(acts, states) && i < |acts| && FenceInv(states[i])
    ensures FenceInv(states[i + 1])
  {
    assert Steps(states, acts, i);
    FenceStep(states[i], acts[i]);
  }

  /** Fencing: in every state of every run, whatever checkouts and record directories the controllers use, a
      worker that is submitted or executing has an unsettled record, at most one record of a directory is
      unsettled, and a settled record tells the truth about its call. */
  lemma Fencing(acts: seq<Action>, states: seq<State>, i: nat)
    requires IsRun(acts, states) && i < |states|
    ensures forall j | Busy(states[i], j) :: Unsettled(states[i], j) && j in states[i].homes
    ensures OnePerDirectory(states[i])
    ensures forall j | j in states[i].records ::
      && (states[i].records[j].phase == Completed ==> j in states[i].calls && states[i].calls[j] == Ended(Returned))
      && (states[i].records[j].phase == Failed ==> j in states[i].calls && states[i].calls[j] == Ended(Errored))
  {
    RunFence(acts, states, i);
    forall j | j in states[i].records ensures JobInv(states[i], j) {}
  }

  ghost predicate Uploads(a: Action) {
    a.UploadArchive? || a.UploadManifest?
  }

  lemma UploadQuiet(s: State, a: Action)
    requires FenceInv(s) && Enabled(s, a) && Uploads(a)
    ensures a.p in s.sites && SettledIn(s, s.sites[a.p].dir) && Apply(s, a).calls == s.calls
  {
    SyncStep(s, a);
  }

  /** No upload happens past a live worker of the uploading controller's own record directory. */
  lemma NoPublicationPastOwn(acts: seq<Action>, states: seq<State>, i: nat, j: JobId)
    requires IsRun(acts, states) && i < |acts| && Uploads(acts[i]) && Busy(states[i], j)
    ensures acts[i].p in states[i].sites && !HomeIs(states[i], j, states[i].sites[acts[i].p].dir)
  {
    RunFence(acts, states, i);
    assert Steps(states, acts, i);
    UploadQuiet(states[i], acts[i]);
    assert JobInv(states[i], j);
  }

  // --- One record directory ----------------------------------------------------------------

  /** Every controller of the run keeps its records in `d`. */
  ghost predicate OneDirectory(acts: seq<Action>, d: Dir) {
    forall i | 0 <= i < |acts| && acts[i].Acquire? :: acts[i].site.dir == d
  }

  ghost predicate HomeInv(s: State, d: Dir) {
    (forall p | p in s.sites :: s.sites[p].dir == d) && forall j | j in s.homes :: s.homes[j] == d
  }

  lemma HomeSync(s: State, a: Action, d: Dir)
    requires HomeInv(s, d) && SyncEnabled(s, a) && (a.Acquire? ==> a.site.dir == d)
    ensures HomeInv(SyncApply(s, a), d)
  {
  }

  lemma HomeJob(s: State, a: Action, d: Dir)
    requires HomeInv(s, d) && JobEnabled(s, a)
    ensures HomeInv(JobApply(s, a), d)
  {
  }

  lemma HomeStep(s: State, a: Action, d: Dir)
    requires HomeInv(s, d) && Enabled(s, a) && (a.Acquire? ==> a.site.dir == d)
    ensures HomeInv(Apply(s, a), d)
  {
    if SyncEnabled(s, a) { HomeSync(s, a, d); }
    else if JobEnabled(s, a) { HomeJob(s, a, d); }
  }

  lemma {:induction false} RunHome(acts: seq<Action>, states: seq<State>, d: Dir, i: nat)
    requires IsRun(acts, states) && OneDirectory(acts, d) && i < |states|
    ensures HomeInv(states[i], d)
  {
    if i > 0 {
      RunHome(acts, states, d, i - 1);
      HomeNext(acts, states, d, i - 1);
    }
  }

  lemma HomeNext(acts: seq<Action>, states: seq<State>, d: Dir, i: nat)
    requires IsRun(acts, states) && OneDirectory(acts, d) && i < |acts| && HomeInv(states[i], d)
    ensures HomeInv(states[i + 1], d)
  {
    assert Steps(states, acts, i);
    HomeStep(states[i], acts[i], d);
  }

  lemma NoWorker(s: State, d: Dir, j: JobId)
    requires FenceInv(s) && HomeInv(s, d) && SettledIn(s, d)
    ensures !Busy(s, j)
  {
    if j in s.calls {
      assert JobInv(s, j) && HomeIs(s, j, d);
    }
  }

  /** When all controllers share one record directory, at most one record is unsettled and no upload, of
      source or of the cache marker in the same batch, happens while any worker is submitted or executing. */
  lemma NoPublicationWhileLive(acts: seq<Action>, states: seq<State>, d: Dir, i: nat)
    requires IsRun(acts, states) && OneDirectory(acts, d) && i < |acts|
    ensures forall j, k | Unsettled(states[i], j) && Unsettled(states[i], k) :: j == k
    ensures Uploads(acts[i]) ==> forall j :: !Busy(states[i], j) && !Busy(states[i + 1], j)
  {
    RunFence(acts, states, i);
    RunHome(acts, states, d, i);
    assert Steps(states, acts, i);
    if Uploads(acts[i]) {
      UploadQuiet(states[i], acts[i]);
      forall j ensures !Busy(states[i], j) && !Busy(states[i + 1], j) {
        NoWorker(states[i], d, j);
      }
    }
  }
}
