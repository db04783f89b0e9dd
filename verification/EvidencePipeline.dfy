/** The incremental evidence pipeline (`scripts/prefix/Defensive-compiler.py`): collect, atoms_build,
    local triage and the three extraction lanes over committed tables. */
module EvidencePipeline {
  import opened Wrappers
  import opened EvidenceTables

  datatype File = File(key: Key, text: string)

  /** The text a scan found for `key`; `None` entries of a scan are read failures. */
  function ScanText(scan: seq<Option<File>>, key: Key): Option<string> {
    if scan == [] then None
    else
      var last := scan[|scan| - 1];
      if last.Some? && last.value.key == key then Some(last.value.text) else ScanText(scan[..|scan| - 1], key)
  }

  lemma {:induction false} ScanTextFound(scan: seq<Option<File>>, key: Key)
    ensures ScanText(scan, key).Some? ==> exists i :: 0 <= i < |scan| && scan[i].Some? && scan[i].value.key == key
  {
    if scan != [] {
      ScanTextFound(scan[..|scan| - 1], key);
    }
  }

  /** No file of the scan failed to read. */
  predicate ScanComplete(scan: seq<Option<File>>) {
    forall i | 0 <= i < |scan| :: scan[i].Some?
  }

  /** Distinct names within one repository. */
  predicate ScanApart(scan: seq<Option<File>>) {
    forall i, j | 0 <= i < j < |scan| && scan[i].Some? && scan[j].Some? :: scan[i].value.key != scan[j].value.key
  }

  /** The text of `key` after a complete scan of `repos`. */
  function Collected(db: Tables, scan: seq<Option<File>>, repos: set<string>, key: Key): Option<string>
    requires DocumentsOk(db)
  {
    if ScanText(scan, key).Some? then ScanText(scan, key)
    else if key.repo in repos then None
    else TextOf(db, key)
  }

  lemma MetaLawful(cfg: Config, db: Tables, db': Tables)
    requires Lawful(cfg, db) && db'.documents == db.documents && db'.atoms == db.atoms
    requires db'.triage == db.triage && db'.groups == db.groups
    ensures Lawful(cfg, db')
  {
    assert forall d :: AtomIds(db', d) == AtomIds(db, d);
    forall a | a in db'.atoms ensures AtomOk(cfg, db', a) {
      assert AtomOk(cfg, db, a);
    }
    forall d | d in db'.documents && AtomIds(db', d) != {} ensures Complete(cfg, db', d) {
      CompleteFrame(cfg, db, db', d);
    }
    GroupsFrame(cfg, db, db');
  }

  predicate Unseen(scan: seq<Option<File>>, repos: set<string>, key: Key) {
    key.repo in repos && ScanText(scan, key).None?
  }

  /** `t` is `t0` without some unseen documents and their groups. */
  ghost predicate Pruned(t0: Tables, t: Tables, scan: seq<Option<File>>, repos: set<string>)
    requires DocumentsOk(t0) && DocumentsOk(t)
  {
    && SameMeta(t0, t) && t.documents.Keys <= t0.documents.Keys
    && (forall k :: TextOf(t, k) == TextOf(t0, k) || (TextOf(t, k).None? && Unseen(scan, repos, k)))
    && (forall g :: g in t.groups <==> g in t0.groups && TextOf(t, g.key).Some?)
  }

  lemma PruneStart(cfg: Config, t: Tables, scan: seq<Option<File>>, repos: set<string>)
    requires Lawful(cfg, t)
    ensures Pruned(t, t, scan, repos)
  {
    forall g | g in t.groups ensures TextOf(t, g.key).Some? {
      assert GroupOk(cfg, t, g);
    }
  }

  lemma PruneStep(cfg: Config, t0: Tables, t: Tables, scan: seq<Option<File>>, repos: set<string>, d: Id)
    requires DocumentsOk(t0) && Lawful(cfg, t) && Pruned(t0, t, scan, repos)
    requires d in t.documents && Unseen(scan, repos, t.documents[d].key)
    ensures Lawful(cfg, Drop(t, d)) && Pruned(t0, Drop(t, d), scan, repos)
  {
    DropLawful(cfg, t, d);
  }

  lemma PruneEnd(t0: Tables, t: Tables, scan: seq<Option<File>>, repos: set<string>)
    requires DocumentsOk(t0) && DocumentsOk(t) && Pruned(t0, t, scan, repos)
    requires forall d | d in t.documents :: !Unseen(scan, repos, t.documents[d].key)
    ensures forall k :: TextOf(t, k) == if Unseen(scan, repos, k) then None else TextOf(t0, k)
  {
    forall k ensures TextOf(t, k) == if Unseen(scan, repos, k) then None else TextOf(t0, k) {
      if Find(t, k).Some? {
        assert !Unseen(scan, repos, t.documents[Find(t, k).value].key);
      }
    }
  }

  /** Absence is meaningful only after the whole scan: drop what the scanned repositories lost. */
  method DropUnseen(ghost cfg: Config, t0: Tables, scan: seq<Option<File>>, repos: set<string>) returns (t: Tables)
    requires Lawful(cfg, t0)
    ensures Lawful(cfg, t) && SameMeta(t0, t)
    ensures forall k :: TextOf(t, k) == if Unseen(scan, repos, k) then None else TextOf(t0, k)
    ensures forall g :: g in t.groups <==> g in t0.groups && TextOf(t, g.key).Some?
  {
    t := t0;
    var todo := t.documents.Keys;
    PruneStart(cfg, t0, scan, repos);
    while todo != {}
      invariant Lawful(cfg, t) && Pruned(t0, t, scan, repos) && todo <= t.documents.Keys
      invariant forall d | d in t.documents && d !in todo :: !Unseen(scan, repos, t.documents[d].key)
      decreases |todo|
    {
      var d :| d in todo;
      if Unseen(scan, repos, t.documents[d].key) {
        PruneStep(cfg, t0, t, scan, repos, d);
        t := Drop(t, d);
      }
      todo := todo - {d};
    }
    PruneEnd(t0, t, scan, repos);
  }

  /** What a build step may not disturb. */
  ghost predicate Extends(db: Tables, db': Tables) {
    && db'.documents == db.documents && db'.triage == db.triage && SameMeta(db, db')
    && (forall g :: g in db'.groups <==> g in db.groups)
    && (forall a | a in db.atoms :: a in db'.atoms && db'.atoms[a] == db.atoms[a])
  }

  /** The body of the loop of `atoms_build` for one document. */
  function BuildOne(cfg: Config, db: Tables, d: Id): Tables
    requires d in db.documents
  {
    if AtomIds(db, d) == {} || exists a | a in AtomIds(db, d) :: db.atoms[a].digest != db.documents[d].digest then
      InsertAtoms(cfg, Invalidate(db, d), d)
    else db
  }

  /** A document without atoms has no group, so invalidating it costs no row. */
  lemma InvalidateBare(cfg: Config, db: Tables, d: Id)
    requires Lawful(cfg, db) && d in db.documents && AtomIds(db, d) == {}
    ensures Extends(db, Invalidate(db, d))
  {
    assert db.atoms - AtomIds(db, d) == db.atoms && db.triage - AtomIds(db, d) == db.triage;
    forall g | g in db.groups ensures g.key != db.documents[d].key {
      assert GroupOk(cfg, db, g);
    }
  }

  lemma Rebuild(cfg: Config, db: Tables, d: Id)
    requires Lawful(cfg, db) && d in db.documents && AtomIds(db, d) == {}
    ensures Lawful(cfg, InsertAtoms(cfg, Invalidate(db, d), d))
    ensures Complete(cfg, InsertAtoms(cfg, Invalidate(db, d), d), d) && Extends(db, InsertAtoms(cfg, Invalidate(db, d), d))
  {
    InvalidateBare(cfg, db, d);
    InvalidateLawful(cfg, db, d);
    InsertAtomsLawful(cfg, Invalidate(db, d), d);
    assert Extends(Invalidate(db, d), InsertAtoms(cfg, Invalidate(db, d), d));
  }

  lemma BuildStep(cfg: Config, db: Tables, d: Id)
    requires Lawful(cfg, db) && d in db.documents
    ensures Lawful(cfg, BuildOne(cfg, db, d)) && Extends(db, BuildOne(cfg, db, d)) && Complete(cfg, BuildOne(cfg, db, d), d)
    ensures forall e | e in db.documents && Complete(cfg, db, e) :: Complete(cfg, BuildOne(cfg, db, d), e)
  {
    forall a | a in AtomIds(db, d) ensures db.atoms[a].digest == db.documents[d].digest {
      assert AtomOk(cfg, db, a);
    }
    if AtomIds(db, d) == {} {
      Rebuild(cfg, db, d);
      forall e | e in db.documents && Complete(cfg, db, e) ensures Complete(cfg, BuildOne(cfg, db, d), e) {
        CompleteFrame(cfg, db, BuildOne(cfg, db, d), e);
      }
    }
  }

  predicate RowsOk(cfg: Config, db: Tables, rows: map<Id, Route>)
    requires AtomsOwned(db)
  {
    forall a | a in rows ::
      a in db.atoms && rows[a] == RouteOf(cfg, db.documents[db.atoms[a].doc].key.path, db.atoms[a].piece.text)
  }

  lemma CommitAtoms(cfg: Config, db: Tables, db': Tables)
    requires AtomsOk(cfg, db) && db' == db.(triage := db'.triage)
    ensures AtomsOk(cfg, db') && forall d :: AtomIds(db', d) == AtomIds(db, d)
  {
    forall a | a in db'.atoms ensures AtomOk(cfg, db', a) {
      assert AtomOk(cfg, db, a);
    }
    assert forall d :: AtomIds(db', d) == AtomIds(db, d);
    forall d | d in db'.documents && AtomIds(db', d) != {} ensures Complete(cfg, db', d) {
      CompleteFrame(cfg, db, db', d);
    }
  }

  lemma CommitTriage(cfg: Config, db: Tables, rows: map<Id, Route>)
    requires AtomsOwned(db) && TriageOk(cfg, db) && RowsOk(cfg, db, rows)
    ensures AtomsOwned(db.(triage := db.triage + rows)) && TriageOk(cfg, db.(triage := db.triage + rows))
  {
  }

  lemma CommitRows(cfg: Config, db: Tables, rows: map<Id, Route>)
    requires Lawful(cfg, db) && RowsOk(cfg, db, rows)
    ensures Lawful(cfg, db.(triage := db.triage + rows))
  {
    var db' := db.(triage := db.triage + rows);
    CommitAtoms(cfg, db, db');
    CommitTriage(cfg, db, rows);
    GroupsFrame(cfg, db, db');
  }

  /** Some document among `ids` has this key and produces this lane. */
  predicate Refreshed(cfg: Config, db: Tables, ids: set<Id>, key: Key, lane: Lane)
    requires ids <= db.documents.Keys
  {
    exists d :: d in ids && db.documents[d].key == key && Produces(cfg, db, d, lane)
  }

  /** The group rows when the documents `ids` have been extracted for `lane`. */
  ghost predicate LaneDone(cfg: Config, before: Tables, groups: seq<Group>, ids: set<Id>, lane: Lane)
    requires ids <= before.documents.Keys
  {
    forall g :: g in groups <==>
      || (g in before.groups && !(g.lane == lane && Refreshed(cfg, before, ids, g.key, lane)))
      || (exists d :: d in ids && Produces(cfg, before, d, lane) && g == FreshGroup(cfg, before, before.documents[d], lane))
  }

  /** The row that `distill_lane` builds for one document from its atom and triage rows, if any: none
      without spans, none without a source URL, none without cards. */
  function LaneRowOf(cfg: Config, db: Tables, d: Id, lane: Lane): Option<Group>
    requires d in db.documents
  {
    var doc := db.documents[d];
    var cards := CardsOf(doc.key, doc.text, MetaOf(db, doc.key), cfg.units(doc.text, doc.key.path), SpanLines(db, d, lane));
    if SpanIds(db, d, lane) == {} || MetaOf(db, doc.key).url == "" || cards == [] then None
    else Some(Group(lane, doc.key, |SpanIds(db, d, lane)|, Sha256(doc.text), cards))
  }

  /** On a complete document the row from the tables is the from-scratch row. */
  lemma LaneRowExact(cfg: Config, db: Tables, d: Id, lane: Lane)
    requires Lawful(cfg, db) && db.triage.Keys == db.atoms.Keys && d in db.documents && Complete(cfg, db, d)
    ensures LaneRowOf(cfg, db, d, lane) ==
            if Produces(cfg, db, d, lane) then Some(FreshGroup(cfg, db, db.documents[d], lane)) else None
  {
    var doc := db.documents[d];
    SpansExact(cfg, db, d, lane);
    CardsCount(doc.key, doc.text, MetaOf(db, doc.key), Meta("", "", None), cfg.units(doc.text, doc.key.path), SpanLines(db, d, lane));
    NonemptyCount(SpanIds(db, d, lane), LaneIndices(cfg, doc.key, doc.text, lane));
  }

  lemma LaneRowComplete(cfg: Config, db: Tables, d: Id, lane: Lane)
    requires Lawful(cfg, db) && d in db.documents && LaneRowOf(cfg, db, d, lane).Some?
    ensures AtomIds(db, d) != {} && Complete(cfg, db, d)
  {
    var a :| a in SpanIds(db, d, lane);
    assert a in AtomIds(db, d);
  }

  lemma NonemptyCount(s: set<Id>, t: set<nat>)
    requires |s| == |t|
    ensures s == {} <==> t == {}
  {
  }

  lemma RowLawful(cfg: Config, db: Tables, d: Id, lane: Lane, row: Group)
    requires Lawful(cfg, db) && d in db.documents && AtomIds(db, d) != {}
    requires row.lane == lane && row.key == db.documents[d].key && Wanted(cfg, row.key, db.documents[d].text, lane)
    ensures Lawful(cfg, db.(groups := Without(db.groups, row.key, {lane}) + [row]))
  {
    var kept := Without(db.groups, row.key, {lane});
    var db' := db.(groups := kept + [row]);
    WithoutKeyedApart(db.groups, row.key, {lane});
    forall i | 0 <= i < |kept| ensures kept[i].lane != row.lane || kept[i].key != row.key {
      assert kept[i] in kept;
    }
    assert forall e :: AtomIds(db', e) == AtomIds(db, e);
    forall g | g in db'.groups ensures GroupOk(cfg, db', g) {
      if g != row {
        assert g in db.groups && GroupOk(cfg, db, g);
      }
    }
    AtomsFrame(cfg, db, db');
  }

  lemma AtomsFrame(cfg: Config, db: Tables, db': Tables)
    requires AtomsOk(cfg, db) && TriageOk(cfg, db)
    requires db'.documents == db.documents && db'.atoms == db.atoms && db'.triage == db.triage
    ensures AtomsOk(cfg, db') && TriageOk(cfg, db')
  {
    forall a | a in db'.atoms ensures AtomOk(cfg, db', a) {
      assert AtomOk(cfg, db, a);
    }
    forall d | d in db'.documents && AtomIds(db', d) != {} ensures Complete(cfg, db', d) {
      assert AtomIds(db', d) == AtomIds(db, d);
      CompleteFrame(cfg, db, db', d);
    }
  }

  lemma LaneStep(cfg: Config, before: Tables, gs: seq<Group>, gs': seq<Group>, ids: set<Id>, d: Id, lane: Lane)
    requires DocumentsOk(before) && ids <= before.documents.Keys && d in before.documents && d !in ids
    requires LaneDone(cfg, before, gs, ids, lane)
    requires
      if Produces(cfg, before, d, lane) then
        gs' == Without(gs, before.documents[d].key, {lane}) + [FreshGroup(cfg, before, before.documents[d], lane)]
      else gs' == gs
    ensures LaneDone(cfg, before, gs', ids + {d}, lane)
  {
    var key := before.documents[d].key;
    forall k ensures Refreshed(cfg, before, ids + {d}, k, lane) <==>
                     Refreshed(cfg, before, ids, k, lane) || (k == key && Produces(cfg, before, d, lane))
    {
      if Refreshed(cfg, before, ids, k, lane) {
        var e :| e in ids && before.documents[e].key == k && Produces(cfg, before, e, lane);
        assert e in ids + {d};
      }
    }
    forall g ensures g in gs' <==>
      || (g in before.groups && !(g.lane == lane && Refreshed(cfg, before, ids + {d}, g.key, lane)))
      || (exists e :: e in ids + {d} && Produces(cfg, before, e, lane) && g == FreshGroup(cfg, before, before.documents[e], lane))
    {
    }
  }

  /** One document of `distill_lane`, on tables that differ from `before` in their groups only. */
  lemma DistillStep(cfg: Config, before: Tables, gs: seq<Group>, ids: set<Id>, d: Id, lane: Lane)
    requires Lawful(cfg, before.(groups := gs)) && before.triage.Keys == before.atoms.Keys
    requires d in before.documents && d !in ids && ids <= before.documents.Keys
    ensures
      var db := before.(groups := gs);
      var row := LaneRowOf(cfg, db, d, lane);
      var gs' := if row.Some? then Without(gs, row.value.key, {lane}) + [row.value] else gs;
      && Lawful(cfg, before.(groups := gs'))
      && (AtomsBuilt(cfg, before) && LaneDone(cfg, before, gs, ids, lane) ==> LaneDone(cfg, before, gs', ids + {d}, lane))
  {
    var db := before.(groups := gs);
    var row := LaneRowOf(cfg, db, d, lane);
    if row.Some? {
      LaneRowComplete(cfg, db, d, lane);
      LaneRowExact(cfg, db, d, lane);
      RowLawful(cfg, db, d, lane, row.value);
    }
    if AtomsBuilt(cfg, before) && LaneDone(cfg, before, gs, ids, lane) {
      assert Complete(cfg, before, d);
      CompleteFrame(cfg, before, db, d);
      LaneRowExact(cfg, db, d, lane);
      var gs' := if row.Some? then Without(gs, row.value.key, {lane}) + [row.value] else gs;
      LaneStep(cfg, before, gs, gs', ids, d, lane);
    }
  }

  /** `t` is `t0` with the files of `scan` put in place. */
  ghost predicate ScannedTo(t0: Tables, t: Tables, scan: seq<Option<File>>)
    requires DocumentsOk(t0) && DocumentsOk(t)
  {
    && SameMeta(t0, t)
    && (forall k :: TextOf(t, k) == if ScanText(scan, k).Some? then ScanText(scan, k) else TextOf(t0, k))
    && (forall g :: g in t.groups <==> g in t0.groups && TextOf(t, g.key) == TextOf(t0, g.key))
  }

  lemma ScanStep(cfg: Config, t0: Tables, t: Tables, scan: seq<Option<File>>, i: nat)
    requires DocumentsOk(t0) && Lawful(cfg, t) && i < |scan| && scan[i].Some? && ScanApart(scan)
    requires ScannedTo(t0, t, scan[..i])
    ensures
      var t' := Put(t, scan[i].value.key, scan[i].value.text);
      Lawful(cfg, t') && ScannedTo(t0, t', scan[..i + 1])
  {
    var File(key, text) := scan[i].value;
    ScanTextFound(scan[..i], key);
    assert ScanText(scan[..i], key).None?;
    assert scan[..i + 1][..i] == scan[..i];
    PutLawful(cfg, t, key, text);
  }

  lemma CollectEnd(cfg: Config, t0: Tables, t: Tables, kept: Tables, result: Tables, scan: seq<Option<File>>, repos: set<string>)
    requires DocumentsOk(t0) && DocumentsOk(t) && DocumentsOk(kept) && Lawful(cfg, result)
    requires ScannedTo(t0, t, scan) && result == kept.(metaOfRepo := result.metaOfRepo)
    requires forall k :: TextOf(kept, k) == if Unseen(scan, repos, k) then None else TextOf(t, k)
    requires forall g :: g in kept.groups <==> g in t.groups && TextOf(kept, g.key).Some?
    requires forall g | g in t0.groups :: TextOf(t0, g.key).Some?
    ensures forall k :: TextOf(result, k) == Collected(t0, scan, repos, k)
    ensures forall g :: g in result.groups <==> g in t0.groups && TextOf(result, g.key) == TextOf(t0, g.key)
  {
    forall k ensures TextOf(result, k) == TextOf(kept, k) {
      if Find(kept, k).Some? {
        assert Find(kept, k).value in result.documents;
      }
    }
  }

  /** The cards of document `d` would pass `validate_card`. */
  predicate ProvenAt(db: Tables, d: Id)
    requires d in db.documents
  {
    Proven(MetaOf(db, db.documents[d].key), db.documents[d].text)
  }

  /** Every document from which `distill_lane` takes a row has complete provenance. */
  predicate LaneProven(cfg: Config, db: Tables, lane: Lane) {
    forall d | d in db.documents && LaneRowOf(cfg, db, d, lane).Some? :: ProvenAt(db, d)
  }

  /** The same, read off the documents, the metadata and the configuration alone. */
  ghost predicate ProvenFor(cfg: Config, db: Tables, lane: Lane) {
    forall d | d in db.documents && Produces(cfg, db, d, lane) :: ProvenAt(db, d)
  }

  ghost predicate AllProven(cfg: Config, db: Tables) {
    ProvenFor(cfg, db, ACTION) && ProvenFor(cfg, db, REASONING) && ProvenFor(cfg, db, THINKING)
  }

  lemma RowIgnoresGroups(cfg: Config, t: Tables, gs: seq<Group>, d: Id, lane: Lane)
    requires d in t.documents
    ensures LaneRowOf(cfg, t.(groups := gs), d, lane) == LaneRowOf(cfg, t, d, lane)
  {
    var t' := t.(groups := gs);
    assert SpanIds(t', d, lane) == SpanIds(t, d, lane) && SpanLines(t', d, lane) == SpanLines(t, d, lane);
  }

  lemma LaneProvenIgnoresGroups(cfg: Config, t: Tables, gs: seq<Group>, lane: Lane)
    ensures LaneProven(cfg, t.(groups := gs), lane) <==> LaneProven(cfg, t, lane)
  {
    var t' := t.(groups := gs);
    forall d | d in t.documents
      ensures LaneRowOf(cfg, t', d, lane) == LaneRowOf(cfg, t, d, lane) && (ProvenAt(t', d) <==> ProvenAt(t, d))
    {
      RowIgnoresGroups(cfg, t, gs, d, lane);
    }
  }

  lemma AllProvenIgnoresGroups(cfg: Config, t: Tables, gs: seq<Group>)
    ensures AllProven(cfg, t.(groups := gs)) <==> AllProven(cfg, t)
  {
    var t' := t.(groups := gs);
    assert forall d, lane | d in t.documents :: Produces(cfg, t', d, lane) == Produces(cfg, t, d, lane);
    assert forall d | d in t.documents :: ProvenAt(t', d) == ProvenAt(t, d);
  }

  /** Atoms and triage are finished. */
  ghost predicate Ready(cfg: Config, t: Tables) {
    Lawful(cfg, t) && AtomsBuilt(cfg, t) && t.triage.Keys == t.atoms.Keys
  }

  /** Then a lane asks for the provenance of exactly the documents that produce a row. */
  lemma LaneAsks(cfg: Config, t: Tables, gs: seq<Group>, lane: Lane)
    requires Ready(cfg, t)
    ensures LaneProven(cfg, t.(groups := gs), lane) <==> ProvenFor(cfg, t, lane)
  {
    LaneProvenIgnoresGroups(cfg, t, gs, lane);
    forall d | d in t.documents ensures LaneRowOf(cfg, t, d, lane).Some? <==> Produces(cfg, t, d, lane) {
      LaneRowExact(cfg, t, d, lane);
    }
  }

  /** Every atom is routed, waiting in `rows`, or still to do. */
  predicate Routing(t: Tables, rows: map<Id, Route>, todo: set<Id>) {
    todo <= t.atoms.Keys && forall a | a in t.atoms :: a in t.triage || a in rows || a in todo
  }

  lemma RoutingEnd(cfg: Config, t: Tables, rows: map<Id, Route>)
    requires Lawful(cfg, t) && RowsOk(cfg, t, rows) && Routing(t, rows, {})
    ensures (t.triage + rows).Keys == t.atoms.Keys
  {
  }

  lemma Shrinks<T>(todo: set<T>, x: T)
    requires x in todo
    ensures |todo - {x}| == |todo| - 1
  {
  }

  lemma Moves<T>(all: set<T>, done: set<T>, todo: set<T>, x: T)
    requires done + todo == all && x in todo
    ensures done + {x} + (todo - {x}) == all
  {
  }

  lemma RowsUnion(cfg: Config, t: Tables, rows: map<Id, Route>, rows': map<Id, Route>)
    requires AtomsOwned(t) && RowsOk(cfg, t, rows) && RowsOk(cfg, t, rows')
    ensures RowsOk(cfg, t, rows + rows')
  {
  }

  lemma RoutingStep(t: Tables, routes: map<Id, Route>, rows: map<Id, Route>, todo: set<Id>, a: Id, r: Route)
    requires Routing(t, routes + rows, todo) && a in todo
    ensures Routing(t, routes + rows[a := r], todo - {a}) && Routing(t, routes + rows[a := r] + map[], todo - {a})
  {
  }

  /** The loop of local `triage`: rows are committed every thousand; `routes` is what was committed. */
  method RouteAtoms(cfg: Config, t0: Tables, stop: nat) returns (ok: bool, routes: map<Id, Route>)
    requires AtomsOwned(t0)
    ensures RowsOk(cfg, t0, routes)
    ensures ok ==> Routing(t0, routes, {})
    ensures stop >= |t0.atoms| ==> ok
  {
    routes := map[];
    var todo := PendingAtoms(t0);
    var rows: map<Id, Route> := map[];
    var steps := 0;
    while todo != {}
      invariant RowsOk(cfg, t0, routes) && RowsOk(cfg, t0, rows) && Routing(t0, routes + rows, todo)
      invariant steps + |todo| <= |t0.atoms|
      decreases |todo|
    {
      if steps >= stop {
        return false, routes;
      }
      var a :| a in todo;
      Shrinks(todo, a);
      var route := RouteOf(cfg, t0.documents[t0.atoms[a].doc].key.path, t0.atoms[a].piece.text);
      RoutingStep(t0, routes, rows, todo, a, route);
      rows := rows[a := route];
      RowsUnion(cfg, t0, routes, rows);
      todo, steps := todo - {a}, steps + 1;
      if |rows| >= 1000 {
        routes, rows := routes + rows, map[];
      }
    }
    RowsUnion(cfg, t0, routes, rows);
    ok, routes := true, routes + rows;
  }

  function PendingAtoms(t: Tables): (r: set<Id>)
    ensures Routing(t, map[], r) && |r| <= |t.atoms|
  {
    Bounded(t.atoms.Keys, t.triage.Keys);
    t.atoms.Keys - t.triage.Keys
  }

  lemma Bounded<T>(a: set<T>, b: set<T>)
    ensures |a - b| <= |a|
  {
    assert a == (a - b) + a * b;
  }

  /** One document of `distill_lane`; on failure nothing is written. */
  method ExtractOne(cfg: Config, ghost t0: Tables, gs: seq<Group>, t: Tables, ghost done: set<Id>, d: Id, lane: Lane)
    returns (ok: bool, gs': seq<Group>)
    requires t == t0.(groups := gs) && Lawful(cfg, t) && t0.triage.Keys == t0.atoms.Keys
    requires d in t0.documents && d !in done && done <= t0.documents.Keys
    ensures Lawful(cfg, t0.(groups := gs')) && (!ok ==> gs' == gs)
    ensures ok && AtomsBuilt(cfg, t0) && LaneDone(cfg, t0, gs, done, lane) ==> LaneDone(cfg, t0, gs', done + {d}, lane)
    ensures ok <==> (LaneRowOf(cfg, t0, d, lane).Some? ==> ProvenAt(t0, d))
  {
    DistillStep(cfg, t0, gs, done, d, lane);
    RowIgnoresGroups(cfg, t0, gs, d, lane);
    var row := LaneRowOf(cfg, t, d, lane);
    if row.Some? {
      if !Proven(MetaOf(t, row.value.key), t.documents[d].text) {
        return false, gs;
      }
      return true, Without(gs, row.value.key, {lane}) + [row.value];
    }
    ok, gs' := true, gs;
  }

  /** The rows `gs` when the documents `done` have been extracted from `t` for `lane`. */
  ghost predicate Extracted(cfg: Config, t: Tables, gs: seq<Group>, done: set<Id>, lane: Lane) {
    && done <= t.documents.Keys && Lawful(cfg, t.(groups := gs))
    && (AtomsBuilt(cfg, t) ==> LaneDone(cfg, t, gs, done, lane))
  }

  /** Half-way through a lane: `done` are extracted and had their provenance, `todo` are still to come. */
  ghost predicate HalfWay(cfg: Config, t: Tables, gs: seq<Group>, done: set<Id>, todo: set<Id>, lane: Lane) {
    && done + todo == t.documents.Keys && done !! todo && Extracted(cfg, t, gs, done, lane)
    && forall d | d in done && LaneRowOf(cfg, t, d, lane).Some? :: ProvenAt(t, d)
  }

  /** One document of the loop of `distill_lane`. */
  method ExtractNext(cfg: Config, t0: Tables, gs: seq<Group>, ghost done: set<Id>, todo: set<Id>, lane: Lane)
    returns (ok: bool, gs': seq<Group>, d: Id)
    requires HalfWay(cfg, t0, gs, done, todo, lane) && todo != {} && t0.triage.Keys == t0.atoms.Keys
    ensures d in todo
    ensures ok ==> HalfWay(cfg, t0, gs', done + {d}, todo - {d}, lane)
    ensures !ok ==> gs' == gs && !LaneProven(cfg, t0, lane)
  {
    d :| d in todo;
    Moves(t0.documents.Keys, done, todo, d);
    ok, gs' := ExtractOne(cfg, t0, gs, t0.(groups := gs), done, d, lane);
  }

  /** The loop of `distill_lane`: each document is committed on its own. */
  method ExtractLane(cfg: Config, t0: Tables, lane: Lane, stop: nat) returns (ok: bool, gs: seq<Group>, ghost done: set<Id>)
    requires Lawful(cfg, t0) && t0.triage.Keys == t0.atoms.Keys
    ensures Extracted(cfg, t0, gs, done, lane)
    ensures ok ==> done == t0.documents.Keys && LaneProven(cfg, t0, lane)
    ensures !ok && stop >= |t0.documents| ==> !LaneProven(cfg, t0, lane)
  {
    ok, gs, done := true, t0.groups, {};
    var todo, steps := t0.documents.Keys, 0;
    while todo != {}
      invariant HalfWay(cfg, t0, gs, done, todo, lane) && steps + |todo| == |t0.documents| && ok
      decreases |todo|
    {
      if steps >= stop {
        return false, gs, done;
      }
      var d;
      ok, gs, d := ExtractNext(cfg, t0, gs, done, todo, lane);
      if !ok {
        return;
      }
      Shrinks(todo, d);
      todo, steps, done := todo - {d}, steps + 1, done + {d};
    }
    assert done == t0.documents.Keys;
  }

  /** Every row was there before or is the from-scratch row. */
  ghost predicate Between(cfg: Config, t: Tables, gs: seq<Group>) {
    forall g | g in gs :: g in t.groups || g in FreshView(cfg, t).groups
  }

  /** `db` is `t` with some lanes, or parts of one, extracted. */
  ghost predicate Extracting(cfg: Config, t: Tables, db: Tables) {
    Lawful(cfg, db) && db == t.(groups := db.groups) && Between(cfg, t, db.groups)
  }

  lemma DoneBetween(cfg: Config, t: Tables, gs: seq<Group>, done: set<Id>, lane: Lane)
    requires done <= t.documents.Keys
    ensures LaneDone(cfg, t, gs, done, lane) ==> Between(cfg, t, gs)
  {
  }

  // --- Incremental equals fresh --------------------------------------------------------

  /** Extraction of one lane leaves the rows of the others alone. */
  lemma OtherLane(cfg: Config, t: Tables, gs: seq<Group>, lane: Lane, g: Group)
    requires LaneDone(cfg, t, gs, t.documents.Keys, lane) && g.lane != lane
    ensures g in gs <==> g in t.groups
  {
  }

  /** A row of the extracted lane afterwards: from scratch, or stale because its document now lacks a URL. */
  lemma OwnLane(cfg: Config, t: Tables, gs: seq<Group>, lane: Lane, g: Group)
    requires Lawful(cfg, t) && LaneDone(cfg, t, gs, t.documents.Keys, lane) && g.lane == lane
    ensures g in gs <==> g in FreshView(cfg, t).groups || (g in t.groups && !HasUrl(t, g.key))
  {
    if g in t.groups {
      assert GroupOk(cfg, t, g);
      var d :| d in t.documents && t.documents[d].key == g.key && AtomIds(t, d) != {}
               && Wanted(cfg, g.key, t.documents[d].text, g.lane);
      assert Produces(cfg, t, d, lane) <==> HasUrl(t, g.key);
      if Refreshed(cfg, t, t.documents.Keys, g.key, lane) {
        var e :| e in t.documents.Keys && t.documents[e].key == g.key && Produces(cfg, t, e, lane);
      }
    }
    if g in FreshView(cfg, t).groups {
      var d, l: Lane :| d in t.documents && Produces(cfg, t, d, l) && g == FreshGroup(cfg, t, t.documents[d], l);
      assert d in t.documents.Keys && Produces(cfg, t, d, lane);
    }
  }

  lemma FreshIgnoresGroups(cfg: Config, t: Tables, gs: seq<Group>)
    ensures FreshView(cfg, t.(groups := gs)) == FreshView(cfg, t)
  {
    var t' := t.(groups := gs);
    assert forall d, lane | d in t.documents :: Produces(cfg, t', d, lane) == Produces(cfg, t, d, lane);
    assert forall d, lane | d in t.documents ::
        FreshGroup(cfg, t', t'.documents[d], lane) == FreshGroup(cfg, t, t.documents[d], lane);
  }

  /** The three lanes in turn, over any metadata: the group table equals the from-scratch one exactly
      when no group that survived so far belongs to a document whose metadata has no URL any more. Such
      a document is quarantined without its old row being deleted. */
  lemma IncrementalEqualsFresh(cfg: Config, t: Tables, gsA: seq<Group>, gsR: seq<Group>, gsT: seq<Group>)
    requires Lawful(cfg, t) && Lawful(cfg, t.(groups := gsA)) && Lawful(cfg, t.(groups := gsR))
    requires LaneDone(cfg, t, gsA, t.documents.Keys, ACTION)
    requires LaneDone(cfg, t.(groups := gsA), gsR, t.documents.Keys, REASONING)
    requires LaneDone(cfg, t.(groups := gsR), gsT, t.documents.Keys, THINKING)
    ensures (set g | g in gsT) == FreshView(cfg, t).groups <==> forall g | g in t.groups :: HasUrl(t, g.key)
  {
    var rebuilt := FreshView(cfg, t).groups;
    forall g ensures g in gsT <==> g in rebuilt || (g in t.groups && !HasUrl(t, g.key)) {
      LaneByLane(cfg, t, gsA, gsR, gsT, g);
    }
    forall g | g in rebuilt ensures HasUrl(t, g.key) {
      var d, l: Lane :| d in t.documents && Produces(cfg, t, d, l) && g == FreshGroup(cfg, t, t.documents[d], l);
    }
  }

  /** The lanes `before` one extraction and `after` it, seen from a row of that lane. */
  lemma OwnLaneOf(cfg: Config, t: Tables, before: seq<Group>, after: seq<Group>, lane: Lane, g: Group)
    requires Lawful(cfg, t.(groups := before)) && LaneDone(cfg, t.(groups := before), after, t.documents.Keys, lane)
    requires g.lane == lane && (g in before <==> g in t.groups)
    ensures g in after <==> g in FreshView(cfg, t).groups || (g in t.groups && !HasUrl(t, g.key))
  {
    FreshIgnoresGroups(cfg, t, before);
    OwnLane(cfg, t.(groups := before), after, lane, g);
  }

  lemma LaneByLane(cfg: Config, t: Tables, gsA: seq<Group>, gsR: seq<Group>, gsT: seq<Group>, g: Group)
    requires Lawful(cfg, t) && Lawful(cfg, t.(groups := gsA)) && Lawful(cfg, t.(groups := gsR))
    requires LaneDone(cfg, t, gsA, t.documents.Keys, ACTION)
    requires LaneDone(cfg, t.(groups := gsA), gsR, t.documents.Keys, REASONING)
    requires LaneDone(cfg, t.(groups := gsR), gsT, t.documents.Keys, THINKING)
    ensures g in gsT <==> g in FreshView(cfg, t).groups || (g in t.groups && !HasUrl(t, g.key))
  {
    if g.lane != ACTION { OtherLane(cfg, t, gsA, ACTION, g); }
    if g.lane != REASONING { OtherLane(cfg, t.(groups := gsA), gsR, REASONING, g); }
    if g.lane != THINKING { OtherLane(cfg, t.(groups := gsR), gsT, THINKING, g); }
    if g.lane == ACTION { OwnLane(cfg, t, gsA, ACTION, g); }
    else if g.lane == REASONING { OwnLaneOf(cfg, t, gsA, gsR, REASONING, g); }
    else { OwnLaneOf(cfg, t, gsR, gsT, THINKING, g); }
  }

  lemma BuiltFrame(cfg: Config, t: Tables, t': Tables)
    requires t'.documents == t.documents && t'.atoms == t.atoms && AtomsBuilt(cfg, t)
    ensures AtomsBuilt(cfg, t')
  {
    forall d | d in t'.documents ensures Complete(cfg, t', d) {
      CompleteFrame(cfg, t, t', d);
    }
  }

  lemma SourcedFrame(t: Tables, t': Tables)
    requires Sourced(t) && t'.documents == t.documents && SameMeta(t, t')
    ensures Sourced(t')
  {
  }

  lemma TextFrame(t: Tables, t': Tables)
    requires DocumentsOk(t) && t'.documents == t.documents
    ensures DocumentsOk(t') && forall k :: TextOf(t', k) == TextOf(t, k)
  {
    forall k ensures TextOf(t', k) == TextOf(t, k) {
      if Find(t, k).Some? {
        assert Find(t, k).value in t'.documents;
      }
    }
  }

  /** The same for all derived tables together, row ids forgotten. */
  lemma ViewExactly(cfg: Config, t: Tables, gsA: seq<Group>, gsR: seq<Group>, gsT: seq<Group>)
    requires Lawful(cfg, t) && AtomsBuilt(cfg, t) && t.triage.Keys == t.atoms.Keys
    requires Lawful(cfg, t.(groups := gsA)) && Lawful(cfg, t.(groups := gsR)) && Lawful(cfg, t.(groups := gsT))
    requires LaneDone(cfg, t, gsA, t.documents.Keys, ACTION)
    requires LaneDone(cfg, t.(groups := gsA), gsR, t.documents.Keys, REASONING)
    requires LaneDone(cfg, t.(groups := gsR), gsT, t.documents.Keys, THINKING)
    ensures
      var db := t.(groups := gsT);
      ViewOf(db) == FreshView(cfg, db) <==> forall g | g in t.groups :: HasUrl(t, g.key)
  {
    IncrementalEqualsFresh(cfg, t, gsA, gsR, gsT);
    ViewByGroups(cfg, t, gsT);
  }

  /** Over finished atoms and triage the group rows alone decide whether the view is the fresh one. */
  lemma ViewByGroups(cfg: Config, t: Tables, gs: seq<Group>)
    requires Lawful(cfg, t.(groups := gs)) && AtomsBuilt(cfg, t) && t.triage.Keys == t.atoms.Keys
    ensures ViewOf(t.(groups := gs)) == FreshView(cfg, t.(groups := gs)) <==> (set g | g in gs) == FreshView(cfg, t).groups
  {
    var db := t.(groups := gs);
    BuiltFrame(cfg, t, db);
    AtomsEqualFresh(cfg, db);
    FreshIgnoresGroups(cfg, t, gs);
  }

  // --- Metadata of the compiler's own writers --------------------------------------------

  /** With that metadata every surviving group has a URL, so the condition is always met. */
  lemma GroupsSourced(cfg: Config, db: Tables)
    requires Lawful(cfg, db) && Sourced(db)
    ensures forall g | g in db.groups :: HasUrl(db, g.key)
  {
    forall g | g in db.groups ensures HasUrl(db, g.key) {
      assert GroupOk(cfg, db, g);
      var d :| d in db.documents && db.documents[d].key == g.key;
      assert HasMeta(db, g.key);
    }
  }

  /** What a scan stores for the repositories it read: `configured_repos` drops empty URLs. */
  predicate Supplied(repos: set<string>, metas: map<string, Meta>) {
    metas.Keys == repos && forall r | r in metas :: metas[r].url != ""
  }

  lemma CollectSourced(t0: Tables, t: Tables, scan: seq<Option<File>>, repos: set<string>, metas: map<string, Meta>)
    requires DocumentsOk(t0) && DocumentsOk(t) && Sourced(t0) && Supplied(repos, metas)
    requires forall i | 0 <= i < |scan| && scan[i].Some? :: scan[i].value.key.repo in repos
    requires t.metaOfRepo == t0.metaOfRepo + metas && t.metaOfDocument == t0.metaOfDocument
    requires forall k :: TextOf(t, k) == Collected(t0, scan, repos, k)
    ensures Sourced(t)
  {
    forall d | d in t.documents ensures HasMeta(t, t.documents[d].key) {
      var key := t.documents[d].key;
      assert TextOf(t, key).Some?;
      if ScanText(scan, key).Some? {
        ScanTextFound(scan, key);
      } else {
        var e := Find(t0, key).value;
        assert HasMeta(t0, t0.documents[e].key);
      }
    }
  }

  /** The three lanes in turn over sourced documents, without any condition: a rebuild. */
  lemma SourcedEqualsFresh(cfg: Config, t: Tables, gsA: seq<Group>, gsR: seq<Group>, gsT: seq<Group>)
    requires Ready(cfg, t) && Sourced(t)
    requires Lawful(cfg, t.(groups := gsA)) && Lawful(cfg, t.(groups := gsR)) && Lawful(cfg, t.(groups := gsT))
    requires LaneDone(cfg, t, gsA, t.documents.Keys, ACTION)
    requires LaneDone(cfg, t.(groups := gsA), gsR, t.documents.Keys, REASONING)
    requires LaneDone(cfg, t.(groups := gsR), gsT, t.documents.Keys, THINKING)
    ensures ViewOf(t.(groups := gsT)) == FreshView(cfg, t.(groups := gsT))
  {
    GroupsSourced(cfg, t);
    ViewExactly(cfg, t, gsA, gsR, gsT);
  }

  lemma BetweenTwo(cfg: Config, t: Tables, gs: seq<Group>, gs': seq<Group>)
    requires Between(cfg, t, gs) && Between(cfg, t.(groups := gs), gs')
    ensures Between(cfg, t, gs')
  {
    FreshIgnoresGroups(cfg, t, gs);
  }

  class Store {
    /** The tables as last committed. */
    var db: Tables

    constructor ()
      ensures db == Tables(map[], map[], map[], [], map[], map[])
    {
      db := Tables(map[], map[], map[], [], map[], map[]);
    }

    /** The tables are lawful and every document has its source metadata. */
    ghost predicate Valid(cfg: Config)
      reads this
    {
      Lawful(cfg, db) && Sourced(db)
    }

    /** One scan transaction. A failure anywhere rolls everything back; a success leaves exactly the
        scanned documents of the scanned repositories, and the groups of unchanged documents. */
    method Collect(ghost cfg: Config, scan: seq<Option<File>>, repos: set<string>, metas: map<string, Meta>)
      returns (ok: bool)
      requires Lawful(cfg, db) && ScanApart(scan)
      requires forall i | 0 <= i < |scan| && scan[i].Some? :: scan[i].value.key.repo in repos
      modifies this
      ensures ok <==> ScanComplete(scan)
      ensures !ok ==> db == old(db)
      ensures ok ==> Lawful(cfg, db) && db.metaOfRepo == old(db).metaOfRepo + metas
                     && db.metaOfDocument == old(db).metaOfDocument
      ensures ok ==> forall k :: TextOf(db, k) == Collected(old(db), scan, repos, k)
      ensures ok ==> forall g :: g in db.groups <==> g in old(db).groups && TextOf(db, g.key) == TextOf(old(db), g.key)
      ensures old(Valid(cfg)) && Supplied(repos, metas) ==> Valid(cfg)
    {
      ghost var t0 := db;
      var t := db;
      for i := 0 to |scan|
        invariant db == t0 && Lawful(cfg, t) && ScannedTo(t0, t, scan[..i])
        invariant forall j | 0 <= j < i :: scan[j].Some?
      {
        if scan[i].None? {
          return false;
        }
        var File(key, text) := scan[i].value;
        ScanStep(cfg, t0, t, scan, i);
        t := Put(t, key, text);
      }
      assert scan[..|scan|] == scan;
      var kept := DropUnseen(cfg, t, scan, repos);
      var result := kept.(metaOfRepo := kept.metaOfRepo + metas);
      MetaLawful(cfg, kept, result);
      CollectEnd(cfg, t0, t, kept, result, scan, repos);
      if Sourced(t0) && Supplied(repos, metas) {
        CollectSourced(t0, result, scan, repos, metas);
      }
      db := result;
      ok := true;
    }

    /** Build atoms for documents that have none; interrupted after at most `stop` documents, with each
        finished document committed. */
    method AtomsBuild(cfg: Config, stop: nat) returns (ok: bool)
      requires Lawful(cfg, db)
      modifies this
      ensures Lawful(cfg, db) && Extends(old(db), db)
      ensures ok ==> AtomsBuilt(cfg, db)
      ensures stop >= |old(db).documents| ==> ok
    {
      var todo := db.documents.Keys;
      var steps := 0;
      while todo != {}
        invariant Lawful(cfg, db) && Extends(old(db), db)
        invariant todo <= db.documents.Keys && steps + |todo| == |db.documents|
        invariant forall d | d in db.documents && d !in todo :: Complete(cfg, db, d)
        decreases |todo|
      {
        if steps >= stop {
          return false;
        }
        var d :| d in todo;
        BuildStep(cfg, db, d);
        db := BuildOne(cfg, db, d);
        todo, steps := todo - {d}, steps + 1;
      }
      ok := true;
    }

    /** Route every atom that has no triage row. */
    method Triage(cfg: Config, stop: nat) returns (ok: bool)
      requires Lawful(cfg, db)
      modifies this
      ensures Lawful(cfg, db) && db == old(db).(triage := db.triage)
      ensures ok ==> db.triage.Keys == db.atoms.Keys
      ensures stop >= |old(db).atoms| ==> ok
    {
      var routes;
      ok, routes := RouteAtoms(cfg, db, stop);
      CommitRows(cfg, db, routes);
      if ok {
        RoutingEnd(cfg, db, routes);
      }
      db := db.(triage := db.triage + routes);
    }

    /** Extract one lane. It raises when triage is unfinished, when a document it takes a row from has
        incomplete provenance, and when stopped; what it committed before stays. */
    method DistillLane(cfg: Config, lane: Lane, stop: nat) returns (ok: bool)
      requires Lawful(cfg, db)
      modifies this
      ensures Lawful(cfg, db) && db == old(db).(groups := db.groups)
      ensures ok ==> db.triage.Keys == db.atoms.Keys && LaneProven(cfg, old(db), lane)
      ensures ok && AtomsBuilt(cfg, old(db)) ==> LaneDone(cfg, old(db), db.groups, db.documents.Keys, lane)
      ensures AtomsBuilt(cfg, old(db)) ==> Between(cfg, old(db), db.groups)
      ensures !ok && stop >= |old(db).documents| && db.triage.Keys == db.atoms.Keys ==> !LaneProven(cfg, old(db), lane)
    {
      if db.triage.Keys != db.atoms.Keys {
        return false;
      }
      var rows;
      ghost var done;
      ok, rows, done := ExtractLane(cfg, db, lane, stop);
      DoneBetween(cfg, db, rows, done, lane);
      db := db.(groups := rows);
    }

    /** One lane, uninterrupted, of an extraction that started from `t`. */
    method NextLane(cfg: Config, ghost t: Tables, lane: Lane) returns (ok: bool)
      requires Ready(cfg, t) && Extracting(cfg, t, db)
      modifies this
      ensures Extracting(cfg, t, db)
      ensures ok <==> ProvenFor(cfg, t, lane)
      ensures ok ==> LaneDone(cfg, old(db), db.groups, t.documents.Keys, lane)
    {
      ghost var gs := db.groups;
      BuiltFrame(cfg, t, db);
      LaneAsks(cfg, t, gs, lane);
      ok := DistillLane(cfg, lane, |db.documents|);
      BetweenTwo(cfg, t, gs, db.groups);
    }

    /** The three lanes over finished atoms and triage: they succeed exactly when every document that
        yields a card has complete provenance, and then the derived tables are those of a rebuild. */
    method Extract(cfg: Config) returns (ok: bool)
      requires Valid(cfg) && Ready(cfg, db)
      modifies this
      ensures Valid(cfg) && Extracting(cfg, old(db), db)
      ensures ok <==> AllProven(cfg, old(db))
      ensures ok ==> ViewOf(db) == FreshView(cfg, db)
    {
      ghost var t := db;
      ok := NextLane(cfg, t, ACTION);
      if ok {
        ghost var gsA := db.groups;
        ok := NextLane(cfg, t, REASONING);
        if ok {
          ghost var gsR := db.groups;
          ok := NextLane(cfg, t, THINKING);
          if ok {
            SourcedEqualsFresh(cfg, t, gsA, gsR, db.groups);
          }
        }
      }
      SourcedFrame(t, db);
    }

    /** A whole pipeline run, whatever earlier, possibly interrupted, runs left behind. It succeeds
        exactly when the scan is complete and every document that yields a card has complete provenance;
        then the derived tables are those of a build from empty tables over the same documents and
        metadata. After an incomplete scan nothing has changed; after a failed extraction every group
        row is a surviving or a from-scratch one. */
    method Refresh(cfg: Config, scan: seq<Option<File>>, repos: set<string>, metas: map<string, Meta>)
      returns (ok: bool)
      requires Valid(cfg) && ScanApart(scan) && Supplied(repos, metas)
      requires forall i | 0 <= i < |scan| && scan[i].Some? :: scan[i].value.key.repo in repos
      modifies this
      ensures Valid(cfg)
      ensures ok <==> ScanComplete(scan) && AllProven(cfg, db)
      ensures !ScanComplete(scan) ==> db == old(db)
      ensures ScanComplete(scan) ==>
                && db.metaOfRepo == old(db).metaOfRepo + metas && db.metaOfDocument == old(db).metaOfDocument
                && Ready(cfg, db)
                && (forall k :: TextOf(db, k) == Collected(old(db), scan, repos, k))
                && (forall g | g in db.groups :: g in old(db).groups || g in FreshView(cfg, db).groups)
      ensures ok ==> ViewOf(db) == FreshView(cfg, db)
    {
      ok := Collect(cfg, scan, repos, metas);
      if !ok { return; }
      ghost var collected := db;
      ok := Derive(cfg);
      TextFrame(collected, db);
    }

    /** Atoms and triage after the scan. */
    method Prepare(cfg: Config)
      requires Valid(cfg)
      modifies this
      ensures Valid(cfg) && Ready(cfg, db) && db.documents == old(db).documents && SameMeta(old(db), db)
      ensures forall g :: g in db.groups <==> g in old(db).groups
    {
      var ok := AtomsBuild(cfg, |db.documents|);
      ghost var built := db;
      ok := Triage(cfg, |db.atoms|);
      BuiltFrame(cfg, built, db);
      SourcedFrame(old(db), db);
    }

    /** Everything after the scan: atoms, triage and the lanes. */
    method Derive(cfg: Config) returns (ok: bool)
      requires Valid(cfg)
      modifies this
      ensures Valid(cfg) && Ready(cfg, db) && db.documents == old(db).documents && SameMeta(old(db), db)
      ensures forall g | g in db.groups :: g in old(db).groups || g in FreshView(cfg, db).groups
      ensures ok <==> AllProven(cfg, db)
      ensures ok ==> ViewOf(db) == FreshView(cfg, db)
    {
      Prepare(cfg);
      ghost var routed := db;
      ok := Extract(cfg);
      BuiltFrame(cfg, routed, db);
      FreshIgnoresGroups(cfg, routed, db.groups);
      AllProvenIgnoresGroups(cfg, routed, db.groups);
    }
  }
}
