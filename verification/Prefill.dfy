/** The bootstrap prefill selector (`bootstrap_prefill_option` and `check_bootstrap_prefill` of
    `scripts/prefix/bootstrap_answer.py`): protected values survive, and the deterministic choice
    does not depend on the order of its inputs. */
module Prefill {
  import opened Wrappers
  import opened Text
  import opened Tables

  // --- Data ----------------------------------------------------------------------------------------

  datatype FactField = ContextWindow | OutputLimit | Tokenizer | Template | Tools | Reasoning
  datatype Scope = Endpoint | Declared
  datatype FactKey = FactKey(field: FactField, scope: Scope)

  /** A native scalar; equal values of different types differ. */
  datatype Scalar = Null | Int(number: int) | Bool(flag: bool) | Text(text: string)

  /** A key is `None` when its field or scope is unknown. */
  datatype Observation = Observation(key: Option<FactKey>, status: string, value: Scalar, evidence: string)
  datatype Requirement = Requirement(key: Option<FactKey>, value: Scalar, evidence: string)

  /** The four draft fields, in the order they are always visited. */
  datatype Field = MaxPrefix | MaxPrompt | ReservedOutput | Framing

  const FIELDS: seq<Field> := [MaxPrefix, MaxPrompt, ReservedOutput, Framing]

  type Values = map<Field, int>

  predicate AllFields<T>(m: map<Field, T>) {
    forall f: Field :: f in m
  }

  datatype Choice = Choice(id: string, rule: string, revision: string, values: Values, needs: seq<Requirement>)

  datatype Previous = Previous(value: Option<int>, revision: string, protection: string)
  type Existing = map<Field, Previous>

  datatype Budget = Budget(reservationShortfall: int, requestedShortfall: int, details: string)

  /** The planner `plan_prefix_model_budget`: any function of the policy, the four values and the
      context window; `None` when it raises. */
  type Planner = (string, Values, int) -> Option<Budget>

  datatype Status = Checked | RequirementsNotMet | BudgetNotFit | ProtectedValue | NoApplicable | Ambiguous | NoCandidate

  datatype Update = Update(field: Field, value: int, expectedRevision: string)

  datatype Candidate = Candidate(id: string, rule: string, revision: string, status: Status, budget: Budget, updates: seq<Update>)

  // --- Shape tests -----------------------------------------------------------------------------------

  predicate Blank(s: string) {
    forall k | 0 <= k < |s| :: Space(s[k])
  }

  /** `bootstrap_prefill_value`. */
  predicate Shaped(f: FactField, v: Scalar) {
    match f
    case ContextWindow | OutputLimit => v.Int? && v.number > 0
    case Tools | Reasoning => v.Bool?
    case Tokenizer | Template => v.Text? && !Blank(v.text)
  }

  predicate ObservationOk(o: Observation) {
    && o.key.Some? && !Blank(o.evidence)
    && (if o.status == "independently_verified" || o.status == "llm_proposed" then Shaped(o.key.value.field, o.value)
        else (o.status == "unknown" || o.status == "conflict") && o.value == Null)
  }

  predicate RequirementOk(r: Requirement) {
    r.key.Some? && !Blank(r.evidence) && Shaped(r.key.value.field, r.value)
  }

  predicate PreviousOk(p: Previous) {
    && !Blank(p.revision) && (p.protection == "preserve" || p.protection == "replaceable")
    && (p.value.Some? ==> p.value.value >= 0)
  }

  predicate ExistingOk(e: Existing) {
    AllFields(e) && forall f | f in e :: PreviousOk(e[f])
  }

  // --- One option ------------------------------------------------------------------------------------

  type Observations = map<FactKey, Observation>

  predicate MeetsOne(obs: Observations, r: Requirement) {
    && r.key.Some? && r.key.value in obs
    && var o := obs[r.key.value];
    o.status == "independently_verified" && o.value == r.value && o.evidence == r.evidence
  }

  predicate Meets(obs: Observations, needs: seq<Requirement>) {
    forall k | 0 <= k < |needs| :: MeetsOne(obs, needs[k])
  }

  predicate OtherNeed(a: Requirement, b: Requirement) { a.key != b.key }

  predicate NeedsOk(needs: seq<Requirement>) {
    && (forall k | 0 <= k < |needs| :: RequirementOk(needs[k]))
    && (forall k, l {:trigger OtherNeed(needs[k], needs[l])} | 0 <= k < l < |needs| :: OtherNeed(needs[k], needs[l]))
  }

  predicate ChoiceOk(plan: Planner, policy: string, context: int, c: Choice) {
    && !Blank(c.id) && !Blank(c.rule) && !Blank(c.revision) && AllFields(c.values)
    && plan(policy, c.values, context).Some? && NeedsOk(c.needs)
  }

  const OUTPUT_KEY := FactKey(OutputLimit, Endpoint)
  const CONTEXT_KEY := FactKey(ContextWindow, Endpoint)

  /** The verified endpoint limit is below the reserved output. */
  predicate OutputExceeded(obs: Observations, values: Values)
    requires AllFields(values)
  {
    && OUTPUT_KEY in obs && obs[OUTPUT_KEY].status == "independently_verified"
    && obs[OUTPUT_KEY].value.Int? && values[ReservedOutput] > obs[OUTPUT_KEY].value.number
  }

  predicate Changes(e: Existing, values: Values, f: Field)
    requires f in e && f in values
  {
    e[f].value != Some(values[f])
  }

  /** A preserved field would get another value. */
  predicate Overwrites(e: Existing, values: Values)
    requires AllFields(e) && AllFields(values)
  {
    exists f: Field :: OverwritesField(e, values, f)
  }

  predicate OverwritesField(e: Existing, values: Values, f: Field)
    requires f in e && f in values
  {
    Changes(e, values, f) && e[f].protection == "preserve"
  }

  /** The state of an option: later tests win over earlier ones. */
  function StatusOf(obs: Observations, e: Existing, b: Budget, c: Choice): Status
    requires AllFields(e) && AllFields(c.values)
  {
    if Overwrites(e, c.values) then ProtectedValue
    else if OutputExceeded(obs, c.values) then BudgetNotFit
    else if !Meets(obs, c.needs) then RequirementsNotMet
    else if b.reservationShortfall != 0 || b.requestedShortfall != 0 then BudgetNotFit
    else Checked
  }

  function UpdatesFrom(e: Existing, values: Values, fields: seq<Field>): seq<Update>
    requires AllFields(e) && AllFields(values)
  {
    if fields == [] then []
    else
      var f, before := fields[|fields| - 1], UpdatesFrom(e, values, fields[..|fields| - 1]);
      if Changes(e, values, f) then before + [Update(f, values[f], e[f].revision)] else before
  }

  function CandidateOf(obs: Observations, e: Existing, b: Budget, c: Choice): Candidate
    requires AllFields(e) && AllFields(c.values)
  {
    var status := StatusOf(obs, e, b, c);
    Candidate(c.id, c.rule, c.revision, status, b, if status == Checked then UpdatesFrom(e, c.values, FIELDS) else [])
  }

  /** The prerequisite loop. */
  method CheckNeeds(obs: Observations, needs: seq<Requirement>) returns (ok: bool, met: bool)
    ensures ok <==> NeedsOk(needs)
    ensures ok ==> (met <==> Meets(obs, needs))
  {
    var keys: seq<Option<FactKey>> := [];
    met := true;
    for k := 0 to |needs|
      invariant NeedsOk(needs[..k]) && (met <==> Meets(obs, needs[..k]))
      invariant |keys| == k && forall j | 0 <= j < k :: keys[j] == needs[j].key
    {
      var r := needs[k];
      NeedsStep(obs, needs, k);
      assert r.key in keys <==> exists j | 0 <= j < k :: needs[j].key == r.key;
      if r.key.None? || r.key in keys || !RequirementOk(r) {
        return false, met;
      }
      keys := keys + [r.key];
      if !MeetsOne(obs, r) {
        met := false;
      }
    }
    assert needs[..|needs|] == needs;
    ok := true;
  }

  lemma NeedsStep(obs: Observations, needs: seq<Requirement>, k: nat)
    requires k < |needs| && NeedsOk(needs[..k])
    ensures NeedsOk(needs[..k + 1]) <==> RequirementOk(needs[k]) && forall j | 0 <= j < k :: needs[j].key != needs[k].key
    ensures NeedsOk(needs) ==> NeedsOk(needs[..k + 1])
    ensures Meets(obs, needs[..k + 1]) <==> Meets(obs, needs[..k]) && MeetsOne(obs, needs[k])
  {
    var a, b := needs[..k], needs[..k + 1];
    assert b == a + [needs[k]];
    assert forall j | 0 <= j < k :: b[j] == a[j] == needs[j];
    if NeedsOk(b) {
      forall j | 0 <= j < k
        ensures needs[j].key != needs[k].key
      {
        assert OtherNeed(b[j], b[k]);
      }
    }
    if RequirementOk(needs[k]) && forall j | 0 <= j < k :: needs[j].key != needs[k].key {
      forall i, j | 0 <= i < j < k + 1
        ensures OtherNeed(b[i], b[j])
      {
        assert j < k ==> OtherNeed(a[i], a[j]);
      }
    }
    if NeedsOk(needs) {
      assert forall i, j | 0 <= i < j < k + 1 :: OtherNeed(needs[i], needs[j]);
    }
  }

  lemma AllListed()
    ensures forall f: Field :: f in FIELDS
  {
    assert FIELDS[0] == MaxPrefix && FIELDS[1] == MaxPrompt && FIELDS[2] == ReservedOutput && FIELDS[3] == Framing;
    forall f: Field
      ensures f in FIELDS
    {
      match f
      case MaxPrefix =>
      case MaxPrompt =>
      case ReservedOutput =>
      case Framing =>
    }
  }

  /** The update loop. */
  method CollectUpdates(e: Existing, values: Values) returns (updates: seq<Update>, overwrites: bool)
    requires AllFields(e) && AllFields(values)
    ensures updates == UpdatesFrom(e, values, FIELDS)
    ensures overwrites <==> Overwrites(e, values)
  {
    updates, overwrites := [], false;
    for k := 0 to |FIELDS|
      invariant updates == UpdatesFrom(e, values, FIELDS[..k])
      invariant overwrites <==> exists j | 0 <= j < k :: OverwritesField(e, values, FIELDS[j])
    {
      var field := FIELDS[k];
      assert FIELDS[..k + 1][..k] == FIELDS[..k];
      if e[field].value != Some(values[field]) {
        if e[field].protection == "preserve" {
          overwrites := true;
        }
        updates := updates + [Update(field, values[field], e[field].revision)];
      }
    }
    assert FIELDS[..|FIELDS|] == FIELDS;
    AllListed();
    if f: Field :| OverwritesField(e, values, f) {
      assert f in FIELDS;
      var j :| 0 <= j < |FIELDS| && FIELDS[j] == f;
      assert OverwritesField(e, values, FIELDS[j]);
    }
  }

  /** `bootstrap_prefill_option`. */
  method CheckChoice(plan: Planner, policy: string, context: int, obs: Observations, e: Existing, c: Choice) returns (r: Result<Candidate>)
    requires AllFields(e)
    requires OUTPUT_KEY in obs && obs[OUTPUT_KEY].status == "independently_verified" ==> obs[OUTPUT_KEY].value.Int?
    ensures r.Ok? <==> ChoiceOk(plan, policy, context, c)
    ensures r.Ok? ==> r.value == CandidateOf(obs, e, plan(policy, c.values, context).value, c)
  {
    if Blank(c.id) || Blank(c.rule) || Blank(c.revision) || !AllFields(c.values) {
      return Raised;
    }
    var planned := plan(policy, c.values, context);
    if planned.None? {
      return Raised;
    }
    var budget := planned.value;
    var ok, met := CheckNeeds(obs, c.needs);
    if !ok {
      return Raised;
    }
    var status := Checked;
    if !met {
      status := RequirementsNotMet;
    } else if budget.reservationShortfall != 0 || budget.requestedShortfall != 0 {
      status := BudgetNotFit;
    }
    if OUTPUT_KEY in obs && obs[OUTPUT_KEY].status == "independently_verified" && c.values[ReservedOutput] > obs[OUTPUT_KEY].value.number {
      status := BudgetNotFit;
    }
    var updates, overwrites := CollectUpdates(e, c.values);
    if overwrites {
      status := ProtectedValue;
    }
    r := Ok(Candidate(c.id, c.rule, c.revision, status, budget, if status == Checked then updates else []));
  }

  // --- What the updates do -----------------------------------------------------------------------------

  /** The owner's side: each update is compared with the revision it expects, then stored. */
  function Store(e: Existing, updates: seq<Update>): Option<Existing> {
    if updates == [] then Some(e)
    else
      var u := updates[0];
      if u.field in e && e[u.field].revision == u.expectedRevision
      then Store(e[u.field := e[u.field].(value := Some(u.value))], updates[1..])
      else None
  }

  /** The stored values after updating every changed field of `fields`. */
  ghost predicate StoredOn(e: Existing, values: Values, fields: seq<Field>, e': Existing)
    requires AllFields(e) && AllFields(values)
  {
    e'.Keys == e.Keys && forall f: Field :: e'[f] == (if f in fields then e[f].(value := Some(values[f])) else e[f])
  }

  lemma {:induction false} StoreAppend(e: Existing, a: seq<Update>, b: seq<Update>)
    ensures Store(e, a + b) == (if Store(e, a).None? then None else Store(Store(e, a).value, b))
  {
    if a == [] {
      assert a + b == b;
    } else {
      assert (a + b)[0] == a[0] && (a + b)[1..] == a[1..] + b;
      var u := a[0];
      if u.field in e && e[u.field].revision == u.expectedRevision {
        StoreAppend(e[u.field := e[u.field].(value := Some(u.value))], a[1..], b);
      }
    }
  }

  lemma {:induction false} StoreUpdates(e: Existing, values: Values, fields: seq<Field>) returns (e': Existing)
    requires AllFields(e) && AllFields(values)
    ensures Store(e, UpdatesFrom(e, values, fields)) == Some(e') && StoredOn(e, values, fields, e')
  {
    if fields == [] {
      e' := e;
    } else {
      var n := |fields| - 1;
      var f := fields[n];
      var before := StoreUpdates(e, values, fields[..n]);
      var last := if Changes(e, values, f) then [Update(f, values[f], e[f].revision)] else [];
      StoreAppend(e, UpdatesFrom(e, values, fields[..n]), last);
      assert fields == fields[..n] + [f];
      e' := if Changes(e, values, f) then before[f := before[f].(value := Some(values[f]))] else before;
      assert Store(before, last) == Some(e');
      assert StoredOn(e, values, fields, e') by {
        forall g: Field
          ensures e'[g] == (if g in fields then e[g].(value := Some(values[g])) else e[g])
        {
          assert g in fields <==> g in fields[..n] || g == f;
        }
      }
    }
  }

  lemma {:induction false} UpdateFields(e: Existing, values: Values, fields: seq<Field>, k: nat)
    requires AllFields(e) && AllFields(values) && k < |UpdatesFrom(e, values, fields)|
    ensures var u := UpdatesFrom(e, values, fields)[k]; Changes(e, values, u.field) && u.value == values[u.field] && u.expectedRevision == e[u.field].revision
  {
    var n := |fields| - 1;
    if k < |UpdatesFrom(e, values, fields[..n])| {
      UpdateFields(e, values, fields[..n], k);
    }
  }

  /** Updates come only with a checked candidate. The owner accepts them all; then the draft has
      exactly the option's four values, and every preserved field is as it was. */
  lemma UpdatesSafe(obs: Observations, e: Existing, b: Budget, c: Choice)
    requires AllFields(e) && AllFields(c.values)
    ensures CandidateOf(obs, e, b, c).updates != [] ==> CandidateOf(obs, e, b, c).status == Checked
    ensures var candidate := CandidateOf(obs, e, b, c);
            candidate.status == Checked ==>
              && Store(e, candidate.updates).Some?
              && (forall f: Field :: f in Store(e, candidate.updates).value && Store(e, candidate.updates).value[f] == e[f].(value := Some(c.values[f])))
              && (forall f: Field | e[f].protection == "preserve" :: Store(e, candidate.updates).value[f] == e[f])
              && (forall k | 0 <= k < |candidate.updates| :: e[candidate.updates[k].field].protection != "preserve")
  {
    var candidate := CandidateOf(obs, e, b, c);
    if candidate.status == Checked {
      var e' := StoreUpdates(e, c.values, FIELDS);
      AllListed();
      assert !Overwrites(e, c.values);
      forall f: Field
        ensures f in e' && e'[f] == e[f].(value := Some(c.values[f])) && (e[f].protection == "preserve" ==> e'[f] == e[f])
      {
        assert !OverwritesField(e, c.values, f);
      }
      forall k | 0 <= k < |candidate.updates|
        ensures e[candidate.updates[k].field].protection != "preserve"
      {
        UpdateFields(e, c.values, FIELDS, k);
        assert !OverwritesField(e, c.values, candidate.updates[k].field);
      }
    }
  }

  // --- The selection -------------------------------------------------------------------------------------

  function ObservationKey(o: Observation): Option<FactKey> { o.key }

  function ChoiceKey(c: Choice): Option<string> { Some(c.id) }

  ghost predicate ObservationsOk(checked: seq<Observation>) {
    (forall i | 0 <= i < |checked| :: ObservationOk(checked[i])) && DistinctBy(checked, ObservationKey)
  }

  /** The observation loop. */
  method Consolidate(checked: seq<Observation>) returns (r: Result<Observations>)
    ensures r.Ok? <==> ObservationsOk(checked)
    ensures r.Ok? ==> r.value == TableBy(checked, ObservationKey)
  {
    var observations: Observations := map[];
    for i := 0 to |checked|
      invariant forall j | 0 <= j < i :: ObservationOk(checked[j])
      invariant DistinctBy(checked[..i], ObservationKey) && observations == TableBy(checked[..i], ObservationKey)
    {
      var o := checked[i];
      TableStep(checked, ObservationKey, i);
      if o.key.None? || o.key.value in observations || !ObservationOk(o) {
        return Raised;
      }
      observations := observations[o.key.value := o];
    }
    assert checked[..|checked|] == checked;
    r := Ok(observations);
  }

  /** The observation is there, verified, and so a positive number of tokens. */
  lemma VerifiedTokens(checked: seq<Observation>, k: FactKey)
    requires ObservationsOk(checked) && k in TableBy(checked, ObservationKey) && (k.field == ContextWindow || k.field == OutputLimit)
    ensures TableBy(checked, ObservationKey)[k].status == "independently_verified" ==> TableBy(checked, ObservationKey)[k].value.Int?
  {
    TableExactly(checked, ObservationKey);
    var i :| 0 <= i < |checked| && checked[i] == TableBy(checked, ObservationKey)[k];
    assert ObservationOk(checked[i]);
  }

  ghost predicate ChoicesOk(plan: Planner, policy: string, context: int, options: seq<Choice>) {
    (forall i | 0 <= i < |options| :: ChoiceOk(plan, policy, context, options[i])) && DistinctBy(options, ChoiceKey)
  }

  /** The candidates by identity. */
  ghost predicate Candidates(plan: Planner, policy: string, context: int, obs: Observations, e: Existing, options: seq<Choice>, m: map<string, Candidate>)
    requires AllFields(e)
  {
    var t := TableBy(options, ChoiceKey);
    m.Keys == t.Keys && forall id | id in m :: Evaluated(plan, policy, context, obs, e, t[id], m[id])
  }

  ghost predicate Evaluated(plan: Planner, policy: string, context: int, obs: Observations, e: Existing, c: Choice, candidate: Candidate)
    requires AllFields(e)
  {
    ChoiceOk(plan, policy, context, c) && candidate == CandidateOf(obs, e, plan(policy, c.values, context).value, c)
  }

  /** What the option loop keeps. */
  ghost predicate Choosing(plan: Planner, policy: string, context: int, obs: Observations, e: Existing, options: seq<Choice>, m: map<string, Candidate>)
    requires AllFields(e)
  {
    ChoicesOk(plan, policy, context, options) && Candidates(plan, policy, context, obs, e, options, m)
  }

  lemma ChoosingMore(plan: Planner, policy: string, context: int, obs: Observations, e: Existing, options: seq<Choice>, i: nat, m: map<string, Candidate>, c: Candidate)
    requires AllFields(e) && i < |options| && Choosing(plan, policy, context, obs, e, options[..i], m)
    requires Evaluated(plan, policy, context, obs, e, options[i], c) && options[i].id !in m
    ensures Choosing(plan, policy, context, obs, e, options[..i + 1], m[options[i].id := c])
  {
    TableStep(options, ChoiceKey, i);
    CandidatesMore(plan, policy, context, obs, e, options[..i], options[..i + 1], m, options[i], c);
    assert options[..i + 1] == options[..i] + [options[i]];
    ChoicesMore(plan, policy, context, options[..i], options[i]);
  }

  lemma ChoicesMore(plan: Planner, policy: string, context: int, options: seq<Choice>, c: Choice)
    requires ChoicesOk(plan, policy, context, options) && ChoiceOk(plan, policy, context, c)
    requires DistinctBy(options + [c], ChoiceKey)
    ensures ChoicesOk(plan, policy, context, options + [c])
  {
  }

  lemma CandidatesMore(plan: Planner, policy: string, context: int, obs: Observations, e: Existing, before: seq<Choice>, after: seq<Choice>, m: map<string, Candidate>, c: Choice, candidate: Candidate)
    requires AllFields(e) && Candidates(plan, policy, context, obs, e, before, m)
    requires Evaluated(plan, policy, context, obs, e, c, candidate)
    requires TableBy(after, ChoiceKey) == TableBy(before, ChoiceKey)[c.id := c]
    ensures Candidates(plan, policy, context, obs, e, after, m[c.id := candidate])
  {
    var t, m' := TableBy(after, ChoiceKey), m[c.id := candidate];
    forall id | id in m'
      ensures Evaluated(plan, policy, context, obs, e, t[id], m'[id])
    {
      assert id != c.id ==> Evaluated(plan, policy, context, obs, e, TableBy(before, ChoiceKey)[id], m[id]);
    }
  }

  lemma ChoosingEnds(plan: Planner, policy: string, context: int, obs: Observations, e: Existing, options: seq<Choice>, i: nat, m: map<string, Candidate>)
    requires AllFields(e) && i < |options| && Choosing(plan, policy, context, obs, e, options[..i], m)
    requires !ChoiceOk(plan, policy, context, options[i]) || options[i].id in m
    ensures !ChoicesOk(plan, policy, context, options)
  {
    TableStep(options, ChoiceKey, i);
  }

  /** The option loop. */
  method CheckChoices(plan: Planner, policy: string, context: int, obs: Observations, e: Existing, options: seq<Choice>) returns (r: Result<map<string, Candidate>>)
    requires AllFields(e)
    requires OUTPUT_KEY in obs && obs[OUTPUT_KEY].status == "independently_verified" ==> obs[OUTPUT_KEY].value.Int?
    ensures r.Ok? <==> ChoicesOk(plan, policy, context, options)
    ensures r.Ok? ==> Candidates(plan, policy, context, obs, e, options, r.value)
  {
    var candidates: map<string, Candidate> := map[];
    for i := 0 to |options|
      invariant Choosing(plan, policy, context, obs, e, options[..i], candidates)
    {
      var candidate := CheckChoice(plan, policy, context, obs, e, options[i]);
      if candidate.Raised? || candidate.value.id in candidates {
        ChoosingEnds(plan, policy, context, obs, e, options, i, candidates);
        return Raised;
      }
      ChoosingMore(plan, policy, context, obs, e, options, i, candidates, candidate.value);
      candidates := candidates[candidate.value.id := candidate.value];
    }
    assert options[..|options|] == options;
    r := Ok(candidates);
  }

  /** The model's protocol: what was captured, and what it answered. */
  datatype Answer = Answer(schema: string, task: string, requestId: string, digest: string, selected: Option<string>, issues: seq<string>)
  datatype Protocol = Protocol(task: string, requestId: string, digest: string, required: seq<Option<FactKey>>, eligible: seq<string>, answer: Answer)

  datatype Decision = Deterministic | Model(protocol: Protocol) | UnknownMethod

  predicate Unrepeated<T(==)>(s: seq<T>) {
    forall i, j | 0 <= i < j < |s| :: s[i] != s[j]
  }

  predicate IssueOk(issue: string) {
    issue in {"missing_evidence", "conflicting_evidence", "target_mismatch", "unsupported_capability",
              "no_applicable_option", "ambiguous_options", "protected_existing_value"}
  }

  /** `validate_bootstrap_answer` for the selection task; the extraction task is refused here. */
  predicate ProtocolOk(p: Protocol) {
    && p.task == "select_bootstrap_prefill" && !Blank(p.requestId)
    && |p.digest| == 64 && (forall i | 0 <= i < 64 :: '0' <= p.digest[i] <= '9' || 'a' <= p.digest[i] <= 'f')
    && (forall i | 0 <= i < |p.required| :: p.required[i].Some?) && Unrepeated(p.required)
    && (forall i | 0 <= i < |p.eligible| :: !Blank(p.eligible[i])) && Unrepeated(p.eligible)
    && p.answer.schema == "brassclaw-bootstrap-answer/1" && p.answer.task == p.task
    && p.answer.requestId == p.requestId && p.answer.digest == p.digest
    && (forall i | 0 <= i < |p.answer.issues| :: IssueOk(p.answer.issues[i])) && Unrepeated(p.answer.issues)
    && (p.answer.selected.Some? ==> p.answer.selected.value in p.eligible)
  }

  datatype Outcome = Outcome(
    status: Status, chosen: Option<Candidate>, updates: seq<Update>, preconditions: seq<(Field, Previous)>, issues: seq<string>)

  function Viable(candidates: map<string, Candidate>): set<string> {
    set id | id in candidates && candidates[id].status == Checked
  }

  function Preconditions(e: Existing): seq<(Field, Previous)>
    requires AllFields(e)
  {
    seq(|FIELDS|, k requires 0 <= k < |FIELDS| => (FIELDS[k], e[FIELDS[k]]))
  }

  function Choose(e: Existing, c: Candidate, issues: seq<string>): Outcome
    requires AllFields(e)
  {
    Outcome(c.status, Some(c), c.updates, if c.status == Checked then Preconditions(e) else [], issues)
  }

  ghost predicate DecisionOk(d: Decision, ids: set<string>) {
    match d
    case Deterministic => true
    case Model(p) => ProtocolOk(p) && (set id | id in p.eligible) == ids
    case UnknownMethod => false
  }

  /** What is decided from the candidates alone. */
  ghost function Decide(d: Decision, candidates: map<string, Candidate>, e: Existing): Outcome
    requires AllFields(e) && DecisionOk(d, candidates.Keys)
  {
    match d
    case Deterministic =>
      var viable := Viable(candidates);
      if viable == {} then Outcome(NoApplicable, None, [], [], [])
      else if exists id :: viable == {id} then (var id :| id in viable; Choose(e, candidates[id], []))
      else Outcome(Ambiguous, None, [], [], [])
    case Model(p) =>
      if p.answer.selected.None? then Outcome(NoCandidate, None, [], [], p.answer.issues)
      else Choose(e, candidates[p.answer.selected.value], p.answer.issues)
  }

  ghost predicate InputsOk(plan: Planner, policy: string, checked: seq<Observation>, e: Existing, options: seq<Choice>, d: Decision) {
    && !Blank(policy) && ObservationsOk(checked)
    && var obs := TableBy(checked, ObservationKey);
    && CONTEXT_KEY in obs && obs[CONTEXT_KEY].status == "independently_verified" && obs[CONTEXT_KEY].value.Int?
    && ExistingOk(e)
    && ChoicesOk(plan, policy, obs[CONTEXT_KEY].value.number, options)
    && DecisionOk(d, TableBy(options, ChoiceKey).Keys)
  }

  lemma Singleton<T>(s: set<T>)
    ensures |s| == 1 <==> exists x :: s == {x}
  {
    if |s| == 1 {
      var x :| x in s;
      assert |s - {x}| == 0;
      assert s == {x};
    }
  }

  lemma CandidateKeys(plan: Planner, policy: string, context: int, obs: Observations, e: Existing, options: seq<Choice>)
    requires AllFields(e) && ChoicesOk(plan, policy, context, options)
    ensures forall id | id in TableBy(options, ChoiceKey) :: ChoiceOk(plan, policy, context, TableBy(options, ChoiceKey)[id])
  {
    TableExactly(options, ChoiceKey);
    var t := TableBy(options, ChoiceKey);
    forall id | id in t
      ensures ChoiceOk(plan, policy, context, t[id])
    {
      var i :| 0 <= i < |options| && options[i] == t[id];
    }
  }

  /** Reference: the candidates as one map. */
  ghost function CandidateMap(plan: Planner, policy: string, checked: seq<Observation>, e: Existing, options: seq<Choice>, d: Decision): (m: map<string, Candidate>)
    requires InputsOk(plan, policy, checked, e, options, d)
    ensures m.Keys == TableBy(options, ChoiceKey).Keys
  {
    var obs := TableBy(checked, ObservationKey);
    var context := obs[CONTEXT_KEY].value.number;
    var t := TableBy(options, ChoiceKey);
    CandidateKeys(plan, policy, context, obs, e, options);
    map id | id in t :: CandidateOf(obs, e, plan(policy, t[id].values, context).value, t[id])
  }

  ghost function Expected(plan: Planner, policy: string, checked: seq<Observation>, e: Existing, options: seq<Choice>, d: Decision): Outcome
    requires InputsOk(plan, policy, checked, e, options, d)
  {
    Decide(d, CandidateMap(plan, policy, checked, e, options, d), e)
  }

  method TakeDecision(d: Decision, candidates: map<string, Candidate>, e: Existing) returns (r: Result<Outcome>)
    requires AllFields(e)
    ensures r.Ok? <==> DecisionOk(d, candidates.Keys)
    ensures r.Ok? ==> r.value == Decide(d, candidates, e)
  {
    match d
    case Deterministic =>
      var viable := Viable(candidates);
      Singleton(viable);
      if |viable| == 1 {
        var id :| id in viable;
        return Ok(Choose(e, candidates[id], []));
      }
      r := Ok(Outcome(if viable == {} then NoApplicable else Ambiguous, None, [], [], []));
    case Model(p) =>
      if !ProtocolOk(p) || (set id | id in p.eligible) != candidates.Keys {
        return Raised;
      }
      if p.answer.selected.None? {
        return Ok(Outcome(NoCandidate, None, [], [], p.answer.issues));
      }
      r := Ok(Choose(e, candidates[p.answer.selected.value], p.answer.issues));
    case UnknownMethod =>
      r := Raised;
  }

  /** `check_bootstrap_prefill`. */
  method CheckPrefill(plan: Planner, policy: string, checked: seq<Observation>, e: Existing, options: seq<Choice>, d: Decision) returns (r: Result<Outcome>)
    ensures r.Ok? <==> InputsOk(plan, policy, checked, e, options, d)
    ensures r.Ok? ==> r.value == Expected(plan, policy, checked, e, options, d)
  {
    if Blank(policy) {
      return Raised;
    }
    var consolidated := Consolidate(checked);
    if consolidated.Raised? {
      return Raised;
    }
    var obs := consolidated.value;
    if CONTEXT_KEY !in obs || obs[CONTEXT_KEY].status != "independently_verified" {
      return Raised;
    }
    VerifiedTokens(checked, CONTEXT_KEY);
    if !ExistingOk(e) {
      return Raised;
    }
    if OUTPUT_KEY in obs {
      VerifiedTokens(checked, OUTPUT_KEY);
    }
    var context := obs[CONTEXT_KEY].value.number;
    var candidates := CheckChoices(plan, policy, context, obs, e, options);
    if candidates.Raised? {
      return Raised;
    }
    r := TakeDecision(d, candidates.value, e);
    if r.Ok? {
      SameCandidates(plan, policy, checked, e, options, d, candidates.value);
    }
  }

  lemma SameCandidates(plan: Planner, policy: string, checked: seq<Observation>, e: Existing, options: seq<Choice>, d: Decision, m: map<string, Candidate>)
    requires InputsOk(plan, policy, checked, e, options, d)
    requires var obs := TableBy(checked, ObservationKey); Candidates(plan, policy, obs[CONTEXT_KEY].value.number, obs, e, options, m)
    ensures m == CandidateMap(plan, policy, checked, e, options, d)
  {
  }

  // --- Theorems --------------------------------------------------------------------------------------------

  /** Over a whole call: updates are returned only for a checked candidate; it is one of the options;
      storing them is accepted and gives exactly that option's four values; preserved fields stay. */
  lemma ProtectedSurvive(plan: Planner, policy: string, checked: seq<Observation>, e: Existing, options: seq<Choice>, d: Decision)
    returns (c: Choice)
    requires InputsOk(plan, policy, checked, e, options, d)
    requires Expected(plan, policy, checked, e, options, d).updates != [] || Expected(plan, policy, checked, e, options, d).status == Checked
    ensures var r := Expected(plan, policy, checked, e, options, d);
            && r.status == Checked && r.chosen.Some? && r.chosen.value.id == c.id && c in options && AllFields(c.values)
            && Store(e, r.updates).Some?
            && (forall f: Field :: f in Store(e, r.updates).value && Store(e, r.updates).value[f] == e[f].(value := Some(c.values[f])))
            && (forall f: Field | e[f].protection == "preserve" :: Store(e, r.updates).value[f] == e[f])
  {
    var m := CandidateMap(plan, policy, checked, e, options, d);
    var r := Decide(d, m, e);
    var id := r.chosen.value.id;
    var obs := TableBy(checked, ObservationKey);
    var context := obs[CONTEXT_KEY].value.number;
    TableExactly(options, ChoiceKey);
    CandidateKeys(plan, policy, context, obs, e, options);
    c := TableBy(options, ChoiceKey)[id];
    UpdatesSafe(obs, e, plan(policy, c.values, context).value, c);
  }

  lemma SameObservations(checked: seq<Observation>, checked': seq<Observation>)
    requires multiset(checked) == multiset(checked') && ObservationsOk(checked)
    ensures ObservationsOk(checked') && TableBy(checked', ObservationKey) == TableBy(checked, ObservationKey)
  {
    SameTable(checked, checked', ObservationKey);
    forall i | 0 <= i < |checked'|
      ensures ObservationOk(checked'[i])
    {
      assert checked'[i] in multiset(checked');
    }
  }

  lemma SameChoices(plan: Planner, policy: string, context: int, options: seq<Choice>, options': seq<Choice>)
    requires multiset(options) == multiset(options') && ChoicesOk(plan, policy, context, options)
    ensures ChoicesOk(plan, policy, context, options') && TableBy(options', ChoiceKey) == TableBy(options, ChoiceKey)
  {
    SameTable(options, options', ChoiceKey);
    forall i | 0 <= i < |options'|
      ensures ChoiceOk(plan, policy, context, options'[i])
    {
      assert options'[i] in multiset(options');
    }
  }

  /** The order of options and of observations does not matter: neither what is refused nor the outcome. */
  lemma OrderIrrelevant(plan: Planner, policy: string, checked: seq<Observation>, e: Existing, options: seq<Choice>, d: Decision,
                        checked': seq<Observation>, options': seq<Choice>)
    requires multiset(checked) == multiset(checked') && multiset(options) == multiset(options')
    requires InputsOk(plan, policy, checked, e, options, d)
    ensures InputsOk(plan, policy, checked', e, options', d)
    ensures Expected(plan, policy, checked, e, options, d) == Expected(plan, policy, checked', e, options', d)
  {
    SameObservations(checked, checked');
    SameChoices(plan, policy, TableBy(checked, ObservationKey)[CONTEXT_KEY].value.number, options, options');
    assert CandidateMap(plan, policy, checked, e, options, d) == CandidateMap(plan, policy, checked', e, options', d);
  }

  /** The viable identities are those of the admissible options. */
  lemma ViableAdmissible(plan: Planner, policy: string, checked: seq<Observation>, e: Existing, options: seq<Choice>)
    requires InputsOk(plan, policy, checked, e, options, Deterministic)
    ensures var viable, t := Viable(CandidateMap(plan, policy, checked, e, options, Deterministic)), TableBy(options, ChoiceKey);
            && (forall c | c in options :: c.id in t && t[c.id] == c && (c.id in viable <==> Admissible(plan, policy, checked, e, c)))
            && (forall id | id in viable :: id in t && t[id] in options && t[id].id == id)
  {
    var obs := TableBy(checked, ObservationKey);
    TableExactly(options, ChoiceKey);
    CandidateKeys(plan, policy, obs[CONTEXT_KEY].value.number, obs, e, options);
    forall c | c in options
      ensures c.id in TableBy(options, ChoiceKey) && TableBy(options, ChoiceKey)[c.id] == c
    {
      var i :| 0 <= i < |options| && options[i] == c;
    }
  }

  /** Under distinct identities one good option is one good identity. */
  lemma OneGood(t: map<string, Choice>, good: set<Choice>, ids: set<string>)
    requires forall c | c in good :: c.id in ids && c.id in t && t[c.id] == c
    requires forall id | id in ids :: id in t && t[id] in good && t[id].id == id
    ensures forall c | good == {c} :: ids == {c.id}
    ensures forall id | ids == {id} :: good == {t[id]}
  {
    forall c | good == {c}
      ensures ids == {c.id}
    {
      assert c in good;
    }
    forall id | ids == {id}
      ensures good == {t[id]}
    {
      assert id in ids;
    }
  }

  lemma OneAdmissible(plan: Planner, policy: string, checked: seq<Observation>, e: Existing, options: seq<Choice>, c: Choice)
    ensures var good := set d | d in options && Admissible(plan, policy, checked, e, d);
            OnlyAdmissible(plan, policy, checked, e, options, c) <==> good == {c}
  {
    var good := set d | d in options && Admissible(plan, policy, checked, e, d);
    if good == {c} {
      assert c in good;
      assert forall d | d in options && Admissible(plan, policy, checked, e, d) :: d in good;
    }
  }

  lemma ViableOnly(plan: Planner, policy: string, checked: seq<Observation>, e: Existing, options: seq<Choice>)
    requires InputsOk(plan, policy, checked, e, options, Deterministic)
    ensures var viable := Viable(CandidateMap(plan, policy, checked, e, options, Deterministic));
            && (forall c | OnlyAdmissible(plan, policy, checked, e, options, c) :: viable == {c.id})
            && (forall id | viable == {id} :: OnlyAdmissible(plan, policy, checked, e, options, TableBy(options, ChoiceKey)[id]))
  {
    var t := TableBy(options, ChoiceKey);
    var viable := Viable(CandidateMap(plan, policy, checked, e, options, Deterministic));
    var good := set d | d in options && Admissible(plan, policy, checked, e, d);
    ViableAdmissible(plan, policy, checked, e, options);
    OneGood(t, good, viable);
    forall c: Choice {
      OneAdmissible(plan, policy, checked, e, options, c);
    }
  }

  lemma DecideDeterministic(m: map<string, Candidate>, e: Existing)
    requires AllFields(e)
    ensures var r := Decide(Deterministic, m, e);
            && (r.status == Checked <==> exists id :: Viable(m) == {id})
            && (r.status != Checked ==> r.chosen == None && r.updates == [])
            && (forall id | Viable(m) == {id} :: id in m && r == Choose(e, m[id], []))
  {
    var viable := Viable(m);
    if id :| viable == {id} {
      assert id in viable;
      var r := Decide(Deterministic, m, e);
      assert r == Choose(e, m[id], []);
    }
  }

  lemma CandidateId(plan: Planner, policy: string, checked: seq<Observation>, e: Existing, options: seq<Choice>, d: Decision, id: string)
    requires InputsOk(plan, policy, checked, e, options, d) && id in CandidateMap(plan, policy, checked, e, options, d)
    ensures CandidateMap(plan, policy, checked, e, options, d)[id].id == id
  {
    TableExactly(options, ChoiceKey);
  }

  /** The deterministic choice is made exactly when one option, and no other, is admissible. */
  lemma DeterministicExactly(plan: Planner, policy: string, checked: seq<Observation>, e: Existing, options: seq<Choice>)
    requires InputsOk(plan, policy, checked, e, options, Deterministic)
    ensures var r := Expected(plan, policy, checked, e, options, Deterministic);
            && (r.status == Checked <==> exists c :: OnlyAdmissible(plan, policy, checked, e, options, c))
            && (r.status != Checked ==> r.chosen == None && r.updates == [])
            && (forall c | OnlyAdmissible(plan, policy, checked, e, options, c) :: r.chosen.Some? && r.chosen.value.id == c.id)
  {
    var m := CandidateMap(plan, policy, checked, e, options, Deterministic);
    DecideDeterministic(m, e);
    ViableOnly(plan, policy, checked, e, options);
    forall c | OnlyAdmissible(plan, policy, checked, e, options, c)
      ensures c.id in m && m[c.id].id == c.id
    {
      assert Viable(m) == {c.id};
      CandidateId(plan, policy, checked, e, options, Deterministic, c.id);
    }
  }

  ghost predicate Admissible(plan: Planner, policy: string, checked: seq<Observation>, e: Existing, c: Choice) {
    var obs := TableBy(checked, ObservationKey);
    && CONTEXT_KEY in obs && obs[CONTEXT_KEY].value.Int? && AllFields(e) && AllFields(c.values)
    && plan(policy, c.values, obs[CONTEXT_KEY].value.number).Some?
    && StatusOf(obs, e, plan(policy, c.values, obs[CONTEXT_KEY].value.number).value, c) == Checked
  }

  ghost predicate OnlyAdmissible(plan: Planner, policy: string, checked: seq<Observation>, e: Existing, options: seq<Choice>, c: Choice) {
    && c in options && Admissible(plan, policy, checked, e, c)
    && forall d | d in options && Admissible(plan, policy, checked, e, d) :: d == c
  }
}
