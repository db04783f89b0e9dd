/** Publication of compiled generations (`publish_directory` of
    `scripts/prefix/base-promt-compiler.py`) by any number of processes that may die at any step. */
module GenerationStore {
  import opened Wrappers

  type byte = x: int | 0 <= x < 256
  type Bytes = seq<byte>

  /** A directory: its files by relative name. */
  type Files = map<string, Bytes>

  datatype Outcome = Published | Differs | Failed

  /** Where a call stands. `pending` are the payloads still to be written to the stage. */
  datatype Phase = Waiting | Holding | Staging(stage: nat, pending: seq<string>) | Finished(outcome: Outcome)

  datatype Call = Call(generation: string, payloads: Files, phase: Phase)

  /** `asked` records every publication that was ever requested. */
  datatype State = State(
    visible: map<string, Files>, stages: map<nat, Files>, lock: Option<nat>, calls: map<nat, Call>,
    asked: set<(string, Files)>)

  /** One step of one process. A crash leaves `junk` where the stage was: a write may be torn. */
  datatype Action =
    | Begin(p: nat, generation: string, payloads: Files)
    | Acquire(p: nat)
    | Check(p: nat, stage: nat, order: seq<string>)
    | Write(p: nat)
    | Rename(p: nat)
    | Fail(p: nat)
    | Crash(p: nat, junk: Files)

  function Names(order: seq<string>): set<string> {
    set n | n in order
  }

  predicate Enabled(s: State, a: Action) {
    if a.Begin? then a.p !in s.calls
    else
      && a.p in s.calls
      && match a {
           case Acquire(p) => s.calls[p].phase == Waiting && s.lock == None
           case Check(p, stage, order) =>
             s.calls[p].phase == Holding && stage !in s.stages && Names(order) == s.calls[p].payloads.Keys
           case Write(p) =>
             && s.calls[p].phase.Staging? && s.calls[p].phase.pending != [] && s.calls[p].phase.stage in s.stages
             && s.calls[p].phase.pending[0] in s.calls[p].payloads
           case Rename(p) =>
             s.calls[p].phase.Staging? && s.calls[p].phase.pending == [] && s.calls[p].phase.stage in s.stages
           case Fail(p) => s.calls[p].phase.Staging?
           case Crash(p, junk) => true
         }
  }

  function Move(s: State, p: nat, phase: Phase): map<nat, Call>
    requires p in s.calls
  {
    s.calls[p := s.calls[p].(phase := phase)]
  }

  /** The call returns or raises: the lock goes with it. */
  function Finish(s: State, p: nat, outcome: Outcome): State
    requires p in s.calls
  {
    s.(calls := Move(s, p, Finished(outcome)), lock := None)
  }

  function Apply(s: State, a: Action): State
    requires Enabled(s, a)
  {
    match a
    case Begin(p, generation, payloads) =>
      s.(calls := s.calls[p := Call(generation, payloads, Waiting)], asked := s.asked + {(generation, payloads)})
    case Acquire(p) => s.(calls := Move(s, p, Holding), lock := Some(p))
    case Check(p, stage, order) =>
      var c := s.calls[p];
      if c.generation !in s.visible then s.(calls := Move(s, p, Staging(stage, order)), stages := s.stages[stage := map[]])
      else Finish(s, p, if SameFiles(s.visible[c.generation], c.payloads) then Published else Differs)
    case Write(p) =>
      var c := s.calls[p];
      var name := c.phase.pending[0];
      s.(calls := Move(s, p, c.phase.(pending := c.phase.pending[1..])),
         stages := s.stages[c.phase.stage := s.stages[c.phase.stage][name := c.payloads[name]]])
    case Rename(p) =>
      var c := s.calls[p];
      var rest := s.stages - {c.phase.stage};
      if c.generation in s.visible then Finish(s.(stages := rest), p, Failed)
      else Finish(s.(visible := s.visible[c.generation := s.stages[c.phase.stage]], stages := rest), p, Published)
    case Fail(p) => Finish(s.(stages := s.stages - {s.calls[p].phase.stage}), p, Failed)
    case Crash(p, junk) =>
      s.(calls := s.calls - {p}, lock := if s.lock == Some(p) then None else s.lock,
         stages := if s.calls[p].phase.Staging? then s.stages[s.calls[p].phase.stage := junk] else s.stages)
  }

  /** The readback: the same inventory, and every payload equal to the file of its name. */
  predicate SameFiles(found: Files, payloads: Files) {
    found.Keys == payloads.Keys && forall n | n in payloads :: found[n] == payloads[n]
  }

  // --- Invariant -----------------------------------------------------------------------------------

  ghost predicate LockHeld(s: State) {
    && (s.lock.Some? ==> s.lock.value in s.calls)
    && forall p | p in s.calls :: (s.calls[p].phase.Holding? || s.calls[p].phase.Staging?) <==> s.lock == Some(p)
  }

  /** What one call may rely on. */
  ghost predicate CallInv(s: State, c: Call) {
    && (c.generation, c.payloads) in s.asked
    && match c.phase {
         case Staging(stage, pending) =>
           && stage in s.stages && c.generation !in s.visible
           && s.stages[stage].Keys + Names(pending) == c.payloads.Keys
           && forall n | n in s.stages[stage] :: s.stages[stage][n] == c.payloads[n]
         case Finished(Published) => c.generation in s.visible && s.visible[c.generation] == c.payloads
         case Finished(Differs) => c.generation in s.visible && s.visible[c.generation] != c.payloads
         case _ => true
       }
  }

  ghost predicate Complete(s: State) {
    forall g | g in s.visible :: (g, s.visible[g]) in s.asked
  }

  ghost predicate Inv(s: State) {
    LockHeld(s) && Complete(s) && forall p | p in s.calls :: CallInv(s, s.calls[p])
  }

  /** Nothing visible is removed or replaced. */
  ghost predicate Keeps(s: State, t: State) {
    && (forall g | g in s.visible :: g in t.visible && t.visible[g] == s.visible[g])
    && (forall r | r in s.asked :: r in t.asked)
  }

  /** A step of `p` does not disturb another call: only the lock holder has a stage and may publish. */
  lemma OthersKept(s: State, a: Action, q: nat)
    requires Inv(s) && Enabled(s, a) && q in s.calls && q != a.p
    ensures q in Apply(s, a).calls && Apply(s, a).calls[q] == s.calls[q] && CallInv(Apply(s, a), s.calls[q])
  {
    assert CallInv(s, s.calls[q]);
  }

  lemma SelfKept(s: State, a: Action)
    requires Inv(s) && Enabled(s, a) && a.p in Apply(s, a).calls
    ensures CallInv(Apply(s, a), Apply(s, a).calls[a.p])
  {
  }

  /** What a rename publishes is the whole payload. */
  lemma RenameWhole(s: State, p: nat)
    requires Inv(s) && Enabled(s, Rename(p))
    ensures s.stages[s.calls[p].phase.stage] == s.calls[p].payloads
    ensures (s.calls[p].generation, s.calls[p].payloads) in s.asked
  {
    assert CallInv(s, s.calls[p]);
    assert Names([]) == {};
  }

  lemma StepComplete(s: State, a: Action)
    requires Inv(s) && Enabled(s, a)
    ensures Complete(Apply(s, a)) && Keeps(s, Apply(s, a))
  {
    if a.Rename? {
      RenameWhole(s, a.p);
    }
  }

  lemma StepInv(s: State, a: Action)
    requires Inv(s) && Enabled(s, a)
    ensures Inv(Apply(s, a)) && Keeps(s, Apply(s, a))
  {
    var t := Apply(s, a);
    StepComplete(s, a);
    forall q | q in t.calls
      ensures CallInv(t, t.calls[q])
    {
      if q == a.p {
        SelfKept(s, a);
      } else {
        OthersKept(s, a, q);
      }
    }
  }

  // --- Whole runs ----------------------------------------------------------------------------------

  /** Every state follows from the one before it; the store starts empty. */
  ghost predicate IsRun(states: seq<State>, actions: seq<Action>) {
    && |states| == |actions| + 1
    && states[0] == State(map[], map[], None, map[], {})
    && forall i | 0 <= i < |actions| :: Steps(states[i], actions[i], states[i + 1])
  }

  ghost predicate Steps(s: State, a: Action, t: State) {
    Enabled(s, a) && Apply(s, a) == t
  }

  lemma {:induction false} RunInv(states: seq<State>, actions: seq<Action>, i: nat)
    requires IsRun(states, actions) && i < |states|
    ensures Inv(states[i])
  {
    if i > 0 {
      RunInv(states, actions, i - 1);
      assert Steps(states[i - 1], actions[i - 1], states[i - 1 + 1]);
      StepInv(states[i - 1], actions[i - 1]);
    }
  }

  /** A visible generation never changes and never disappears. */
  lemma {:induction false} Immutable(states: seq<State>, actions: seq<Action>, i: nat, j: nat, g: string)
    requires IsRun(states, actions) && i <= j < |states| && g in states[i].visible
    ensures g in states[j].visible && states[j].visible[g] == states[i].visible[g]
    decreases j
  {
    if i < j {
      Immutable(states, actions, i, j - 1, g);
      RunInv(states, actions, j - 1);
      assert Steps(states[j - 1], actions[j - 1], states[j - 1 + 1]);
      StepInv(states[j - 1], actions[j - 1]);
    }
  }

  /** A visible generation is complete: it is all the payloads of one request made earlier. */
  lemma {:induction false} VisibleComplete(states: seq<State>, actions: seq<Action>, i: nat, g: string) returns (k: nat)
    requires IsRun(states, actions) && i < |states| && g in states[i].visible
    ensures k < i && actions[k].Begin? && actions[k].generation == g && actions[k].payloads == states[i].visible[g]
  {
    RunInv(states, actions, i);
    k := AskedBy(states, actions, i, (g, states[i].visible[g]));
  }

  lemma {:induction false} AskedBy(states: seq<State>, actions: seq<Action>, i: nat, r: (string, Files)) returns (k: nat)
    requires IsRun(states, actions) && i < |states| && r in states[i].asked
    ensures k < i && actions[k].Begin? && (actions[k].generation, actions[k].payloads) == r
  {
    assert i > 0;
    assert Steps(states[i - 1], actions[i - 1], states[i - 1 + 1]);
    if r in states[i - 1].asked {
      k := AskedBy(states, actions, i - 1, r);
    } else {
      k := i - 1;
    }
  }

  /** A call that returns has its own payloads visible; one that finds a difference is refused because
      the published files are others. Both stay so for the rest of the run. */
  lemma OutcomeHolds(states: seq<State>, actions: seq<Action>, i: nat, j: nat, p: nat)
    requires IsRun(states, actions) && i <= j < |states| && p in states[i].calls && states[i].calls[p].phase.Finished?
    requires states[i].calls[p].phase.outcome != Failed
    ensures var c := states[i].calls[p];
            && c.generation in states[j].visible
            && (states[j].visible[c.generation] == c.payloads <==> c.phase.outcome == Published)
  {
    RunInv(states, actions, i);
    assert CallInv(states[i], states[i].calls[p]);
    Immutable(states, actions, i, j, states[i].calls[p].generation);
  }
}
