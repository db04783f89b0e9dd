/** The worker's job directory (`run_build` in `scripts/modal_build_worker.py`, under the wrapper
    `compile_source` of `scripts/modal_build.py`): executions one after another on a storage volume
    whose uncommitted writes are lost when a container dies. */
module BuildOnce {
  import opened Wrappers

  type JobId = nat
  datatype Receipt = Receipt(returncode: int, startedAt: int, durationSecs: nat)
  datatype Request = Request(job: JobId, inputs: nat)

  /** `request.json` is created exclusively and then filled; `completed.json` is renamed into place. */
  datatype RequestFile = Absent | Torn | Whole(request: Request)
  datatype Directory = Directory(request: RequestFile, completed: Option<Receipt>)
  type Volume = map<JobId, Directory>

  datatype Pc =
    | Checking | Writing | Wrote | Admitted | Building
    | Renamed(receipt: Receipt) | Answering(receipt: Receipt)

  /** The running container: its request, where it stands, and its mounted view of the volume. */
  datatype Container = Container(req: Request, pc: Pc, view: Volume)

  datatype Event = Cargo(req: Request) | Return(req: Request, receipt: Receipt)

  datatype State = State(volume: Volume, running: Option<Container>, events: seq<Event>)

  datatype Action =
    | Begin(req: Request) | Check | Fill | CommitRequest | SpawnCargo | Rename(receipt: Receipt)
    | CommitReceipt | Answer | Background | Fail(commits: bool) | Die

  const INITIAL := State(map[], None, [])

  function Dir(v: Volume, j: JobId): Directory {
    if j in v then v[j] else Directory(Absent, None)
  }

  predicate Enabled(s: State, a: Action) {
    match a
    case Begin(_) => s.running.None?
    case Check => s.running.Some? && s.running.value.pc == Checking
    case Fill => s.running.Some? && s.running.value.pc == Writing
    case CommitRequest => s.running.Some? && s.running.value.pc == Wrote
    case SpawnCargo => s.running.Some? && s.running.value.pc == Admitted
    case Rename(_) => s.running.Some? && s.running.value.pc == Building
    case CommitReceipt => s.running.Some? && s.running.value.pc.Renamed?
    case Answer => s.running.Some? && s.running.value.pc.Answering?
    case Background => s.running.Some?
    case Fail(_) => s.running.Some?
    case Die => s.running.Some?
  }

  function Goto(s: State, pc: Pc, view: Volume): State
    requires s.running.Some?
  {
    s.(running := Some(s.running.value.(pc := pc, view := view)))
  }

  function Commit(s: State): State
    requires s.running.Some?
  {
    s.(volume := s.running.value.view)
  }

  /** The admission test at the top of `run_build`. */
  function Admission(s: State): State
    requires s.running.Some?
  {
    var c := s.running.value;
    var d := Dir(c.view, c.req.job);
    if d.request == Absent then Goto(s, Writing, c.view[c.req.job := d.(request := Torn)])
    else if d.request != Whole(c.req) then Commit(s).(running := None)
    else if d.completed.Some? then Goto(s, Answering(d.completed.value), c.view)
    else Commit(s).(running := None)
  }

  function Apply(s: State, a: Action): State
    requires Enabled(s, a)
  {
    match a
    case Begin(req) => s.(running := Some(Container(req, Checking, s.volume)))
    case Check => Admission(s)
    case Fill =>
      var c := s.running.value;
      Goto(s, Wrote, c.view[c.req.job := Dir(c.view, c.req.job).(request := Whole(c.req))])
    case CommitRequest => Goto(Commit(s), Admitted, s.running.value.view)
    case SpawnCargo =>
      Goto(s, Building, s.running.value.view).(events := s.events + [Cargo(s.running.value.req)])
    case Rename(receipt) =>
      var c := s.running.value;
      Goto(s, Renamed(receipt), c.view[c.req.job := Dir(c.view, c.req.job).(completed := Some(receipt))])
    case CommitReceipt => Goto(Commit(s), Answering(s.running.value.pc.receipt), s.running.value.view)
    case Answer =>
      var c := s.running.value;
      Commit(s).(running := None, events := s.events + [Return(c.req, c.pc.receipt)])
    case Background => Commit(s)
    case Fail(commits) => (if commits then Commit(s) else s).(running := None)
    case Die => s.(running := None)
  }

  predicate IsRun(acts: seq<Action>, states: seq<State>) {
    && |states| == |acts| + 1 && states[0] == INITIAL
    && forall i | 0 <= i < |acts| :: Enabled(states[i], acts[i]) && states[i + 1] == Apply(states[i], acts[i])
  }

  // --- What every step keeps -----------------------------------------------------------

  /** What one volume must say about the events so far. */
  predicate Accounts(v: Volume, e: Event) {
    match e
    case Cargo(req) => Dir(v, req.job).request == Whole(req)
    case Return(req, receipt) => Dir(v, req.job) == Directory(Whole(req), Some(receipt))
  }

  predicate Spawned(s: State, j: JobId) {
    exists i :: 0 <= i < |s.events| && s.events[i].Cargo? && s.events[i].req.job == j
  }

  predicate VolumeInv(s: State, v: Volume) {
    && (forall i | 0 <= i < |s.events| :: Accounts(v, s.events[i]))
    && (forall j | j in v && v[j].completed.Some? :: v[j].request.Whole? && Cargo(v[j].request.request) in s.events)
    && (forall j | j in v && v[j].request.Whole? :: v[j].request.request.job == j)
  }

  /** The view differs from the committed volume only in the running job's directory. */
  ghost predicate ContainerInv(s: State, c: Container) {
    var j := c.req.job;
    && VolumeInv(s, c.view)
    && (forall k | k != j :: Dir(c.view, k) == Dir(s.volume, k))
    && match c.pc
       case Checking => c.view == s.volume
       case Writing => !Spawned(s, j) && Dir(c.view, j) == Directory(Torn, None)
       case Wrote => !Spawned(s, j) && Dir(c.view, j) == Directory(Whole(c.req), None)
       case Admitted => !Spawned(s, j) && Dir(c.view, j) == Directory(Whole(c.req), None) && c.view == s.volume
       case Building => Cargo(c.req) in s.events && Dir(c.view, j) == Directory(Whole(c.req), None) && c.view == s.volume
       case Renamed(r) => Cargo(c.req) in s.events && Dir(c.view, j) == Directory(Whole(c.req), Some(r))
       case Answering(r) => Dir(c.view, j) == Directory(Whole(c.req), Some(r)) && c.view == s.volume
  }

  ghost predicate Inv(s: State) {
    && VolumeInv(s, s.volume)
    && (forall i, k | 0 <= i < k < |s.events| && s.events[i].Cargo? && s.events[k].Cargo? ::
          s.events[i].req.job != s.events[k].req.job)
    && (forall i | 0 <= i < |s.events| && s.events[i].Return? ::
          exists k :: 0 <= k < i && s.events[k] == Cargo(s.events[i].req))
    && (s.running.Some? ==> ContainerInv(s, s.running.value))
  }

  lemma AdmissionKeeps(s: State)
    requires Inv(s) && Enabled(s, Check)
    ensures Inv(Apply(s, Check))
  {
    var c := s.running.value;
    var j := c.req.job;
    var s' := Apply(s, Check);
    if Dir(c.view, j).request == Absent {
      assert !Spawned(s, j);
      forall i | 0 <= i < |s.events| ensures Accounts(s'.running.value.view, s.events[i]) {
        assert Accounts(c.view, s.events[i]);
      }
    }
  }

  lemma CargoKeeps(s: State)
    requires Inv(s) && Enabled(s, SpawnCargo)
    ensures Inv(Apply(s, SpawnCargo))
  {
    var c := s.running.value;
    var s' := Apply(s, SpawnCargo);
    forall i | 0 <= i < |s.events| && s.events[i].Cargo? ensures s.events[i].req.job != c.req.job {
      if s.events[i].req.job == c.req.job {
        assert Spawned(s, c.req.job);
      }
    }
    assert forall e | e in s.events :: e in s'.events;
    assert s'.events[|s.events|] == Cargo(c.req);
    assert VolumeInv(s', s.volume);
  }

  lemma AnswerKeeps(s: State)
    requires Inv(s) && Enabled(s, Answer)
    ensures Inv(Apply(s, Answer))
  {
    var c := s.running.value;
    var s' := Apply(s, Answer);
    assert Cargo(c.req) in s.events;
    assert forall e | e in s.events :: e in s'.events;
    assert s'.events[|s.events|] == Return(c.req, c.pc.receipt);
  }

  lemma RenameKeeps(s: State, receipt: Receipt)
    requires Inv(s) && Enabled(s, Rename(receipt))
    ensures Inv(Apply(s, Rename(receipt)))
  {
    var c := s.running.value;
    var s' := Apply(s, Rename(receipt));
    forall i | 0 <= i < |s.events| ensures Accounts(s'.running.value.view, s.events[i]) {
      assert Accounts(c.view, s.events[i]) && Accounts(s.volume, s.events[i]);
    }
  }

  lemma FillKeeps(s: State)
    requires Inv(s) && Enabled(s, Fill)
    ensures Inv(Apply(s, Fill))
  {
    var c := s.running.value;
    var s' := Apply(s, Fill);
    forall i | 0 <= i < |s.events| ensures Accounts(s'.running.value.view, s.events[i]) {
      assert Accounts(c.view, s.events[i]);
    }
  }

  lemma StepKeeps(s: State, a: Action)
    requires Inv(s) && Enabled(s, a)
    ensures Inv(Apply(s, a))
  {
    match a
    case Check => AdmissionKeeps(s);
    case SpawnCargo => CargoKeeps(s);
    case Answer => AnswerKeeps(s);
    case Rename(r) => RenameKeeps(s, r);
    case Fill => FillKeeps(s);
    case _ =>
  }

  lemma {:induction false} RunKeeps(acts: seq<Action>, states: seq<State>, i: nat)
    requires IsRun(acts, states) && i < |states|
    ensures Inv(states[i])
  {
    if i > 0 {
      RunKeeps(acts, states, i - 1);
      StepKeeps(states[i - 1], acts[i - 1]);
    }
  }

  /** At-most-once: over every sequence of executions, deaths and background commits, Cargo starts at
      most once per job, every event of a job carries the same request, every answer for a job gives
      the same receipt, and no answer is given before Cargo started for that very request. */
  lemma AtMostOnce(acts: seq<Action>, states: seq<State>, i: nat)
    requires IsRun(acts, states) && i < |states|
    ensures
      var es := states[i].events;
      && (forall x, y | 0 <= x < y < |es| && es[x].Cargo? && es[y].Cargo? :: es[x].req.job != es[y].req.job)
      && (forall x, y | 0 <= x < |es| && 0 <= y < |es| && es[x].req.job == es[y].req.job :: es[x].req == es[y].req)
      && (forall x, y | 0 <= x < |es| && 0 <= y < |es| && es[x].Return? && es[y].Return?
                        && es[x].req.job == es[y].req.job :: es[x].receipt == es[y].receipt)
      && (forall x | 0 <= x < |es| && es[x].Return? :: exists y :: 0 <= y < x && es[y] == Cargo(es[x].req))
  {
    RunKeeps(acts, states, i);
    var s := states[i];
    forall x | 0 <= x < |s.events| ensures Accounts(s.volume, s.events[x]) {}
  }

  /** Reuse of a job ID with different inputs ends in a refusal: no Cargo, no answer, nothing written. */
  lemma ReuseRefused(acts: seq<Action>, states: seq<State>, i: nat)
    requires IsRun(acts, states) && i < |acts| && acts[i] == Check
    requires Dir(states[i].volume, states[i].running.value.req.job).request != Absent
    requires Dir(states[i].volume, states[i].running.value.req.job).request != Whole(states[i].running.value.req)
    ensures states[i + 1].running.None? && states[i + 1].events == states[i].events && states[i + 1].volume == states[i].volume
  {
    RunKeeps(acts, states, i);
  }
}
