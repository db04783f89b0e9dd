/** The tables of the evidence compiler (`scripts/prefix/Defensive-compiler.py`) and what it means
    for the derived ones to be those of a from-scratch build.

    The tokenizer-driven atomizer, the local routing mask and the section parser are arbitrary
    deterministic functions, fixed by the configuration. */
module EvidenceTables {
  import opened Wrappers

  type Id = nat
  datatype Key = Key(repo: string, path: string)
  datatype Digest = Sha256(text: string)
  datatype Meta = Meta(url: string, revision: string, snapshot: Option<Digest>)
  datatype Piece = Piece(lineStart: nat, lineEnd: nat, tokens: nat, text: string)
  datatype Unit = Unit(lineStart: nat, lineEnd: nat, excerpt: string, parents: string)
  datatype Lane = ACTION | REASONING | THINKING

  datatype Config = Config(
    atomize: string -> seq<Piece>,
    mask: (string, string) -> nat,
    units: (string, string) -> seq<Unit>)

  datatype Document = Document(key: Key, text: string, digest: Digest)
  datatype Atom = Atom(doc: Id, index: nat, piece: Piece, digest: Digest)
  datatype Route = Route(mask: nat, keep: bool)
  datatype Card = Card(key: Key, document: Digest, unit: Unit, source: Meta)
  datatype Group = Group(lane: Lane, key: Key, count: nat, digest: Digest, cards: seq<Card>)

  datatype Tables = Tables(
    documents: map<Id, Document>,
    atoms: map<Id, Atom>,
    triage: map<Id, Route>,
    groups: seq<Group>,
    metaOfDocument: map<Key, Meta>,
    metaOfRepo: map<string, Meta>)

  // --- Configuration-determined values -------------------------------------------------

  function Bit(lane: Lane): nat {
    match lane case ACTION => 4 case REASONING => 2 case THINKING => 1
  }

  predicate InLane(r: Route, lane: Lane) {
    r.keep && r.mask / Bit(lane) % 2 == 1
  }

  function RouteOf(cfg: Config, path: string, text: string): Route {
    Route(cfg.mask(path, text), cfg.mask(path, text) != 0)
  }

  function MetaOf(db: Tables, key: Key): Meta {
    if key in db.metaOfDocument then db.metaOfDocument[key]
    else if key.repo in db.metaOfRepo then db.metaOfRepo[key.repo]
    else Meta("", "", None)
  }

  /** What `validate_card` demands of the source metadata once a URL is present. */
  predicate Proven(meta: Meta, text: string) {
    && meta.url != "" && (meta.revision != "" || meta.snapshot.Some?)
    && (meta.snapshot.Some? ==> meta.snapshot.value == Sha256(text))
  }

  predicate Overlaps(u: Unit, spans: set<(nat, nat)>) {
    exists s | s in spans :: s.1 >= u.lineStart && s.0 <= u.lineEnd
  }

  /** The cards of the units that some span touches, in document order. */
  function CardsOf(key: Key, text: string, meta: Meta, units: seq<Unit>, spans: set<(nat, nat)>): seq<Card> {
    if units == [] then []
    else
      (if Overlaps(units[0], spans) then [Card(key, Sha256(text), units[0], meta)] else [])
      + CardsOf(key, text, meta, units[1..], spans)
  }

  /** The pieces of a document that its text routes into `lane`. */
  function LaneIndices(cfg: Config, key: Key, text: string, lane: Lane): set<nat> {
    set i | 0 <= i < |cfg.atomize(text)| && InLane(RouteOf(cfg, key.path, cfg.atomize(text)[i].text), lane)
  }

  function LaneSpans(cfg: Config, key: Key, text: string, lane: Lane): set<(nat, nat)> {
    set i | 0 <= i < |cfg.atomize(text)| && InLane(RouteOf(cfg, key.path, cfg.atomize(text)[i].text), lane) ::
      (cfg.atomize(text)[i].lineStart, cfg.atomize(text)[i].lineEnd)
  }

  function LaneCards(cfg: Config, key: Key, text: string, meta: Meta, lane: Lane): seq<Card> {
    CardsOf(key, text, meta, cfg.units(text, key.path), LaneSpans(cfg, key, text, lane))
  }

  /** The document yields at least one card in `lane`; this does not depend on the metadata. */
  predicate Wanted(cfg: Config, key: Key, text: string, lane: Lane) {
    LaneIndices(cfg, key, text, lane) != {} && LaneCards(cfg, key, text, Meta("", "", None), lane) != []
  }

  lemma {:induction false} CardsCount(key: Key, text: string, m: Meta, m': Meta, units: seq<Unit>, spans: set<(nat, nat)>)
    ensures |CardsOf(key, text, m, units, spans)| == |CardsOf(key, text, m', units, spans)|
  {
    if units != [] {
      CardsCount(key, text, m, m', units[1..], spans);
    }
  }

  function FreshGroup(cfg: Config, db: Tables, d: Document, lane: Lane): Group {
    Group(lane, d.key, |LaneIndices(cfg, d.key, d.text, lane)|, Sha256(d.text),
          LaneCards(cfg, d.key, d.text, MetaOf(db, d.key), lane))
  }

  predicate HasUrl(db: Tables, key: Key) {
    MetaOf(db, key).url != ""
  }

  /** What the two writers of metadata leave behind: they store a URL, in the transaction that stores
      the document, and no statement removes one. */
  predicate Sourced(db: Tables) {
    && (forall k | k in db.metaOfDocument :: db.metaOfDocument[k].url != "")
    && (forall r | r in db.metaOfRepo :: db.metaOfRepo[r].url != "")
    && (forall d | d in db.documents :: HasMeta(db, db.documents[d].key))
  }

  predicate HasMeta(db: Tables, key: Key) {
    key in db.metaOfDocument || key.repo in db.metaOfRepo
  }

  // --- The from-scratch build, free of row ids -------------------------------------------

  datatype AtomRow = AtomRow(key: Key, index: nat, piece: Piece, route: Route)
  datatype View = View(atoms: set<AtomRow>, groups: set<Group>)

  /** What a build from empty derived tables yields for these documents and metadata. */
  ghost function FreshView(cfg: Config, db: Tables): View {
    View(set d, i | d in db.documents.Keys && 0 <= i < |cfg.atomize(db.documents[d].text)| ::
           AtomRow(db.documents[d].key, i, cfg.atomize(db.documents[d].text)[i],
                   RouteOf(cfg, db.documents[d].key.path, cfg.atomize(db.documents[d].text)[i].text)),
         set d, lane: Lane | d in db.documents.Keys && Produces(cfg, db, d, lane) ::
           FreshGroup(cfg, db, db.documents[d], lane))
  }

  predicate Produces(cfg: Config, db: Tables, d: Id, lane: Lane)
    requires d in db.documents
  {
    var doc := db.documents[d];
    Wanted(cfg, doc.key, doc.text, lane) && HasUrl(db, doc.key)
  }

  /** What the tables hold, with row ids forgotten. */
  ghost function ViewOf(db: Tables): View
    requires AtomsOwned(db) && db.triage.Keys == db.atoms.Keys
  {
    View(set a | a in db.atoms.Keys ::
           AtomRow(db.documents[db.atoms[a].doc].key, db.atoms[a].index, db.atoms[a].piece, db.triage[a]),
         set g | g in db.groups)
  }

  predicate AtomsOwned(db: Tables) {
    forall a | a in db.atoms :: db.atoms[a].doc in db.documents
  }

  // --- The invariant of the tables -------------------------------------------------------

  predicate DocumentsOk(db: Tables) {
    && (forall d | d in db.documents :: db.documents[d].digest == Sha256(db.documents[d].text))
    && (forall d, e | d in db.documents && e in db.documents && db.documents[d].key == db.documents[e].key :: d == e)
  }

  /** Every atom row is one piece of its document, and `UNIQUE(doc_id, local_index)`. */
  predicate AtomOk(cfg: Config, db: Tables, a: Id)
    requires a in db.atoms
  {
    var atom := db.atoms[a];
    && atom.doc in db.documents
    && atom.digest == db.documents[atom.doc].digest
    && atom.index < |cfg.atomize(db.documents[atom.doc].text)|
    && atom.piece == cfg.atomize(db.documents[atom.doc].text)[atom.index]
  }

  predicate AtomsOk(cfg: Config, db: Tables) {
    && (forall a | a in db.atoms :: AtomOk(cfg, db, a))
    && (forall a, b | a in db.atoms && b in db.atoms && db.atoms[a].doc == db.atoms[b].doc
                      && db.atoms[a].index == db.atoms[b].index :: a == b)
    && (forall d | d in db.documents && AtomIds(db, d) != {} :: Complete(cfg, db, d))
  }

  function AtomIds(db: Tables, d: Id): set<Id> {
    set a | a in db.atoms && db.atoms[a].doc == d
  }

  /** Every piece of document `d` has its atom row. */
  predicate Complete(cfg: Config, db: Tables, d: Id)
    requires d in db.documents
  {
    forall i | 0 <= i < |cfg.atomize(db.documents[d].text)| :: HasAtom(db, d, i)
  }

  predicate HasAtom(db: Tables, d: Id, i: nat) {
    exists a :: a in db.atoms && db.atoms[a].doc == d && db.atoms[a].index == i
  }

  /** No triage row outlives its atom, and every one is the deterministic route of its atom. */
  predicate TriageOk(cfg: Config, db: Tables)
    requires AtomsOwned(db)
  {
    && db.triage.Keys <= db.atoms.Keys
    && forall a | a in db.triage ::
         db.triage[a] == RouteOf(cfg, db.documents[db.atoms[a].doc].key.path, db.atoms[a].piece.text)
  }

  predicate GroupOk(cfg: Config, db: Tables, g: Group) {
    exists d :: d in db.documents && db.documents[d].key == g.key && AtomIds(db, d) != {}
                && Wanted(cfg, g.key, db.documents[d].text, g.lane)
  }

  predicate GroupsOk(cfg: Config, db: Tables) {
    && (forall g | g in db.groups :: GroupOk(cfg, db, g))
    && KeyedApart(db.groups)
  }

  predicate Lawful(cfg: Config, db: Tables) {
    DocumentsOk(db) && AtomsOk(cfg, db) && TriageOk(cfg, db) && GroupsOk(cfg, db)
  }

  // --- Row operations ------------------------------------------------------------------

  /** Delete the rows of `key` in `lanes`. */
  function Without(gs: seq<Group>, key: Key, lanes: set<Lane>): (r: seq<Group>)
    ensures forall g :: g in r <==> g in gs && !(g.key == key && g.lane in lanes)
  {
    if gs == [] then []
    else if gs[0].key == key && gs[0].lane in lanes then Without(gs[1..], key, lanes)
    else [gs[0]] + Without(gs[1..], key, lanes)
  }

  predicate KeyedApart(gs: seq<Group>) {
    forall i, j | 0 <= i < j < |gs| :: gs[i].lane != gs[j].lane || gs[i].key != gs[j].key
  }

  lemma {:induction false} WithoutKeyedApart(gs: seq<Group>, key: Key, lanes: set<Lane>)
    requires KeyedApart(gs)
    ensures KeyedApart(Without(gs, key, lanes))
  {
    if gs != [] {
      WithoutKeyedApart(gs[1..], key, lanes);
      var rest := Without(gs[1..], key, lanes);
      forall j | 0 <= j < |rest| ensures gs[0].lane != rest[j].lane || gs[0].key != rest[j].key {
        assert rest[j] in gs[1..];
      }
    }
  }

  /** `invalidate_document`. */
  function Invalidate(db: Tables, d: Id): Tables
    requires d in db.documents
  {
    var key := db.documents[d].key;
    db.(groups := Without(db.groups, key, {ACTION, REASONING, THINKING}),
        triage := db.triage - AtomIds(db, d),
        atoms := db.atoms - AtomIds(db, d))
  }

  lemma InvalidateAtoms(cfg: Config, db: Tables, d: Id)
    requires DocumentsOk(db) && AtomsOk(cfg, db) && d in db.documents
    ensures AtomsOk(cfg, Invalidate(db, d)) && AtomIds(Invalidate(db, d), d) == {}
    ensures forall e | e in db.documents && e != d :: AtomIds(Invalidate(db, d), e) == AtomIds(db, e)
  {
    var db' := Invalidate(db, d);
    forall a | a in db'.atoms ensures AtomOk(cfg, db', a) {
      assert AtomOk(cfg, db, a);
    }
    forall e | e in db'.documents && AtomIds(db', e) != {} ensures Complete(cfg, db', e) {
      assert e != d;
      assert AtomIds(db', e) <= AtomIds(db, e);
      CompleteFrame(cfg, db, db', e);
    }
  }

  /** Group rows stay lawful when their documents keep text and atoms. */
  lemma GroupsFrame(cfg: Config, db: Tables, db': Tables)
    requires GroupsOk(cfg, db) && KeyedApart(db'.groups)
    requires forall g | g in db'.groups :: g in db.groups
    requires forall g, e | g in db'.groups && e in db.documents && db.documents[e].key == g.key && AtomIds(db, e) != {} ::
      e in db'.documents && db'.documents[e] == db.documents[e] && AtomIds(db', e) != {}
    ensures GroupsOk(cfg, db')
  {
    forall g | g in db'.groups ensures GroupOk(cfg, db', g) {
      assert GroupOk(cfg, db, g);
    }
  }

  lemma InvalidateLawful(cfg: Config, db: Tables, d: Id)
    requires Lawful(cfg, db) && d in db.documents
    ensures Lawful(cfg, Invalidate(db, d)) && AtomIds(Invalidate(db, d), d) == {}
    ensures forall e | e in db.documents && e != d :: AtomIds(Invalidate(db, d), e) == AtomIds(db, e)
  {
    WithoutKeyedApart(db.groups, db.documents[d].key, {ACTION, REASONING, THINKING});
    InvalidateAtoms(cfg, db, d);
    GroupsFrame(cfg, db, Invalidate(db, d));
  }

  /** SQLite's next row id: one more than the largest in use. */
  function NextId(ids: set<Id>): (r: Id)
    ensures forall i | i in ids :: i < r
  {
    if ids == {} then 1
    else
      MaxExists(ids);
      var m :| m in ids && forall i | i in ids :: i <= m;
      m + 1
  }

  lemma {:induction false} MaxExists(ids: set<Id>)
    requires ids != {}
    ensures exists m :: m in ids && forall i | i in ids :: i <= m
  {
    var k :| k in ids;
    var rest := ids - {k};
    var m := k;
    if rest != {} {
      MaxExists(rest);
      m :| m in rest && forall i | i in rest :: i <= m;
    }
    var top := if k > m then k else m;
    forall i | i in ids ensures i <= top {
      assert i == k || i in rest;
    }
    assert top in ids;
  }

  function NewAtom(d: Id, digest: Digest, pieces: seq<Piece>, base: Id, k: Id): Atom
    requires base <= k < base + |pieces|
  {
    Atom(d, k - base, pieces[k - base], digest)
  }

  /** One atom row per piece, with consecutive new ids. */
  function InsertAtoms(cfg: Config, db: Tables, d: Id): Tables
    requires d in db.documents
  {
    var base := NextId(db.atoms.Keys);
    var pieces := cfg.atomize(db.documents[d].text);
    db.(atoms := db.atoms + map k: Id | base <= k < base + |pieces| ::
                   NewAtom(d, db.documents[d].digest, pieces, base, k))
  }

  lemma InsertedRows(cfg: Config, db: Tables, d: Id)
    requires d in db.documents
    ensures
      var db' := InsertAtoms(cfg, db, d);
      var base := NextId(db.atoms.Keys);
      var pieces := cfg.atomize(db.documents[d].text);
      && (forall a | a in db.atoms :: a in db'.atoms && db'.atoms[a] == db.atoms[a])
      && (forall a | a in db'.atoms && a !in db.atoms ::
            base <= a < base + |pieces| && db'.atoms[a] == NewAtom(d, db.documents[d].digest, pieces, base, a))
      && (forall i | 0 <= i < |pieces| :: HasAtom(db', d, i))
  {
    var db' := InsertAtoms(cfg, db, d);
    var base := NextId(db.atoms.Keys);
    var pieces := cfg.atomize(db.documents[d].text);
    forall i | 0 <= i < |pieces| ensures HasAtom(db', d, i) {
      assert base + i in db'.atoms && db'.atoms[base + i] == NewAtom(d, db.documents[d].digest, pieces, base, base + i);
    }
  }

  lemma InsertedAtoms(cfg: Config, db: Tables, d: Id)
    requires DocumentsOk(db) && AtomsOk(cfg, db) && d in db.documents && AtomIds(db, d) == {}
    ensures AtomsOk(cfg, InsertAtoms(cfg, db, d)) && Complete(cfg, InsertAtoms(cfg, db, d), d)
  {
    var db' := InsertAtoms(cfg, db, d);
    InsertedRows(cfg, db, d);
    forall a | a in db.atoms ensures db.atoms[a].doc != d {
      assert a !in AtomIds(db, d);
    }
    forall a | a in db'.atoms ensures AtomOk(cfg, db', a) {
      if a in db.atoms {
        assert AtomOk(cfg, db, a);
      }
    }
    forall e | e in db'.documents && AtomIds(db', e) != {} ensures Complete(cfg, db', e) {
      if e != d {
        var a :| a in AtomIds(db', e);
        assert a in AtomIds(db, e);
        CompleteFrame(cfg, db, db', e);
      }
    }
  }

  /** A new row never meets a triage row that an earlier owner of its id left behind. */
  lemma InsertAtomsLawful(cfg: Config, db: Tables, d: Id)
    requires Lawful(cfg, db) && d in db.documents && AtomIds(db, d) == {}
    ensures
      var db' := InsertAtoms(cfg, db, d);
      && Lawful(cfg, db') && Complete(cfg, db', d)
      && (forall a | a in db'.atoms && a !in db.atoms :: a !in db'.triage && db'.atoms[a].doc == d)
      && (forall a | a in db.atoms :: a in db'.atoms && db'.atoms[a] == db.atoms[a])
  {
    var db' := InsertAtoms(cfg, db, d);
    InsertedAtoms(cfg, db, d);
    InsertedRows(cfg, db, d);
    assert forall e :: AtomIds(db, e) <= AtomIds(db', e);
    GroupsFrame(cfg, db, db');
  }

  lemma CompleteFrame(cfg: Config, db: Tables, db': Tables, e: Id)
    requires e in db.documents && e in db'.documents && db'.documents[e] == db.documents[e] && Complete(cfg, db, e)
    requires forall a | a in db.atoms && db.atoms[a].doc == e :: a in db'.atoms && db'.atoms[a] == db.atoms[a]
    ensures Complete(cfg, db', e)
  {
    forall i | 0 <= i < |cfg.atomize(db'.documents[e].text)| ensures HasAtom(db', e, i) {
      assert HasAtom(db, e, i);
    }
  }

  // --- Documents -------------------------------------------------------------------------

  function Find(db: Tables, key: Key): (r: Option<Id>)
    requires DocumentsOk(db)
    ensures r.Some? ==> r.value in db.documents && db.documents[r.value].key == key
    ensures r.None? ==> forall d | d in db.documents :: db.documents[d].key != key
  {
    if d :| d in db.documents && db.documents[d].key == key then Some(d) else None
  }

  function TextOf(db: Tables, key: Key): Option<string>
    requires DocumentsOk(db)
  {
    match Find(db, key) case None => None case Some(d) => Some(db.documents[d].text)
  }

  function Insert(db: Tables, key: Key, text: string): Tables {
    db.(documents := db.documents[NextId(db.documents.Keys) := Document(key, text, Sha256(text))])
  }

  function Replace(db: Tables, d: Id, text: string): Tables
    requires d in db.documents
  {
    var db1 := Invalidate(db, d);
    db1.(documents := db1.documents[d := Document(db.documents[d].key, text, Sha256(text))])
  }

  /** Insert or update one scanned document; an unchanged digest touches nothing. */
  function Put(db: Tables, key: Key, text: string): Tables
    requires DocumentsOk(db)
  {
    match Find(db, key)
    case None => Insert(db, key, text)
    case Some(d) => if db.documents[d].digest == Sha256(text) then db else Replace(db, d, text)
  }

  function Drop(db: Tables, d: Id): Tables
    requires d in db.documents
  {
    var db1 := Invalidate(db, d);
    db1.(documents := db1.documents - {d})
  }

  predicate SameMeta(db: Tables, db': Tables) {
    db'.metaOfDocument == db.metaOfDocument && db'.metaOfRepo == db.metaOfRepo
  }

  /** A document without atoms may change freely. */
  lemma BareAtoms(cfg: Config, db: Tables, db': Tables, d: Id)
    requires AtomsOk(cfg, db) && AtomIds(db, d) == {} && db'.atoms == db.atoms
    requires forall e | e != d :: e in db.documents <==> e in db'.documents
    requires forall e | e != d && e in db.documents :: db'.documents[e] == db.documents[e]
    ensures AtomsOk(cfg, db') && (forall a | a in db.atoms :: db.atoms[a].doc != d) && forall e :: AtomIds(db', e) == AtomIds(db, e)
  {
    forall a | a in db.atoms ensures db.atoms[a].doc != d && AtomOk(cfg, db', a) {
      assert AtomOk(cfg, db, a);
      assert a !in AtomIds(db, d);
    }
    assert forall e :: AtomIds(db', e) == AtomIds(db, e);
    forall e | e in db'.documents && AtomIds(db', e) != {} ensures Complete(cfg, db', e) {
      CompleteFrame(cfg, db, db', e);
    }
  }

  lemma ReplaceBareDocument(cfg: Config, db: Tables, db': Tables, d: Id)
    requires Lawful(cfg, db) && AtomIds(db, d) == {} && DocumentsOk(db')
    requires db'.atoms == db.atoms && db'.triage == db.triage && db'.groups == db.groups
    requires forall e | e != d :: e in db.documents <==> e in db'.documents
    requires forall e | e != d && e in db.documents :: db'.documents[e] == db.documents[e]
    ensures Lawful(cfg, db')
  {
    BareAtoms(cfg, db, db', d);
    GroupsFrame(cfg, db, db');
  }

  /** Only the scanned document changes text, and only its groups go, and only if it changed. */
  ghost predicate Scanned(db: Tables, db': Tables, key: Key, text: string)
    requires DocumentsOk(db) && DocumentsOk(db')
  {
    && SameMeta(db, db')
    && (forall k :: TextOf(db', k) == if k == key then Some(text) else TextOf(db, k))
    && (forall g :: g in db'.groups <==> g in db.groups && (g.key != key || TextOf(db, key) == Some(text)))
  }

  /** `db'` has document `d` with this key and text, and the other documents of `db`. */
  lemma TextsAfter(db: Tables, db': Tables, d: Id, key: Key, text: string)
    requires DocumentsOk(db) && DocumentsOk(db')
    requires d in db'.documents && db'.documents[d].key == key && db'.documents[d].text == text
    requires d in db.documents ==> db.documents[d].key == key
    requires forall e | e != d :: e in db.documents <==> e in db'.documents
    requires forall e | e != d && e in db.documents :: db'.documents[e] == db.documents[e]
    ensures forall k :: TextOf(db', k) == if k == key then Some(text) else TextOf(db, k)
  {
    forall k ensures TextOf(db', k) == if k == key then Some(text) else TextOf(db, k) {
      if k != key && Find(db, k).Some? {
        assert db'.documents[Find(db, k).value] == db.documents[Find(db, k).value];
      }
    }
  }

  lemma InsertLawful(cfg: Config, db: Tables, key: Key, text: string)
    requires Lawful(cfg, db) && Find(db, key).None?
    ensures Lawful(cfg, Insert(db, key, text)) && Scanned(db, Insert(db, key, text), key, text)
  {
    var d := NextId(db.documents.Keys);
    forall a | a in db.atoms ensures db.atoms[a].doc != d {
      assert AtomOk(cfg, db, a);
    }
    assert AtomIds(db, d) == {};
    ReplaceBareDocument(cfg, db, Insert(db, key, text), d);
    TextsAfter(db, Insert(db, key, text), d, key, text);
    forall g | g in db.groups ensures g.key != key {
      assert GroupOk(cfg, db, g);
    }
  }

  lemma ReplaceLawful(cfg: Config, db: Tables, d: Id, text: string)
    requires Lawful(cfg, db) && d in db.documents && db.documents[d].digest != Sha256(text)
    ensures Lawful(cfg, Replace(db, d, text)) && Scanned(db, Replace(db, d, text), db.documents[d].key, text)
  {
    InvalidateLawful(cfg, db, d);
    ReplaceBareDocument(cfg, Invalidate(db, d), Replace(db, d, text), d);
    TextsAfter(db, Replace(db, d, text), d, db.documents[d].key, text);
    assert TextOf(db, db.documents[d].key) == Some(db.documents[d].text);
  }

  lemma PutLawful(cfg: Config, db: Tables, key: Key, text: string)
    requires Lawful(cfg, db)
    ensures Lawful(cfg, Put(db, key, text)) && Scanned(db, Put(db, key, text), key, text)
  {
    if Find(db, key).None? {
      InsertLawful(cfg, db, key, text);
    } else {
      var d := Find(db, key).value;
      if db.documents[d].digest != Sha256(text) {
        ReplaceLawful(cfg, db, d, text);
      } else {
        assert TextOf(db, key) == Some(text);
      }
    }
  }

  lemma DropLawful(cfg: Config, db: Tables, d: Id)
    requires Lawful(cfg, db) && d in db.documents
    ensures Lawful(cfg, Drop(db, d)) && SameMeta(db, Drop(db, d))
    ensures forall k :: TextOf(Drop(db, d), k) == if k == db.documents[d].key then None else TextOf(db, k)
    ensures forall g :: g in Drop(db, d).groups <==> g in db.groups && g.key != db.documents[d].key
  {
    InvalidateLawful(cfg, db, d);
    var db' := Drop(db, d);
    ReplaceBareDocument(cfg, Invalidate(db, d), db', d);
    forall k ensures TextOf(db', k) == if k == db.documents[d].key then None else TextOf(db, k) {
      if k != db.documents[d].key && Find(db, k).Some? {
        assert Find(db, k).value in db'.documents;
      }
    }
  }

  // --- Spans ---------------------------------------------------------------------------

  function SpanIds(db: Tables, d: Id, lane: Lane): set<Id> {
    set a | a in db.atoms && db.atoms[a].doc == d && a in db.triage && InLane(db.triage[a], lane)
  }

  function SpanLines(db: Tables, d: Id, lane: Lane): set<(nat, nat)> {
    set a | a in db.atoms && db.atoms[a].doc == d && a in db.triage && InLane(db.triage[a], lane) ::
      (db.atoms[a].piece.lineStart, db.atoms[a].piece.lineEnd)
  }

  /** The rows of a complete, triaged document carry exactly its lane pieces. */
  lemma SpansExact(cfg: Config, db: Tables, d: Id, lane: Lane)
    requires Lawful(cfg, db) && db.triage.Keys == db.atoms.Keys && d in db.documents && Complete(cfg, db, d)
    ensures SpanLines(db, d, lane) == LaneSpans(cfg, db.documents[d].key, db.documents[d].text, lane)
    ensures |SpanIds(db, d, lane)| == |LaneIndices(cfg, db.documents[d].key, db.documents[d].text, lane)|
  {
    var key, text := db.documents[d].key, db.documents[d].text;
    forall s | s in SpanLines(db, d, lane) ensures s in LaneSpans(cfg, key, text, lane) {
      var a :| a in db.atoms && db.atoms[a].doc == d && a in db.triage && InLane(db.triage[a], lane)
               && s == (db.atoms[a].piece.lineStart, db.atoms[a].piece.lineEnd);
      assert AtomOk(cfg, db, a);
      assert db.atoms[a].index in LaneIndices(cfg, key, text, lane);
    }
    forall s | s in LaneSpans(cfg, key, text, lane) ensures s in SpanLines(db, d, lane) {
      var i :| 0 <= i < |cfg.atomize(text)| && InLane(RouteOf(cfg, key.path, cfg.atomize(text)[i].text), lane)
               && s == (cfg.atomize(text)[i].lineStart, cfg.atomize(text)[i].lineEnd);
      assert HasAtom(db, d, i);
      var a :| a in db.atoms && db.atoms[a].doc == d && db.atoms[a].index == i;
      assert AtomOk(cfg, db, a);
    }
    SpanCount(cfg, db, d, lane);
  }

  lemma SpanCount(cfg: Config, db: Tables, d: Id, lane: Lane)
    requires Lawful(cfg, db) && db.triage.Keys == db.atoms.Keys && d in db.documents && Complete(cfg, db, d)
    ensures |SpanIds(db, d, lane)| == |LaneIndices(cfg, db.documents[d].key, db.documents[d].text, lane)|
  {
    var key, text := db.documents[d].key, db.documents[d].text;
    var ids, indices := SpanIds(db, d, lane), LaneIndices(cfg, key, text, lane);
    var images := set a | a in ids :: db.atoms[a].index;
    forall i | i in indices ensures i in images {
      assert HasAtom(db, d, i);
      var a :| a in db.atoms && db.atoms[a].doc == d && db.atoms[a].index == i;
      assert AtomOk(cfg, db, a);
      assert a in ids;
    }
    forall i | i in images ensures i in indices {
      var a :| a in ids && db.atoms[a].index == i;
      assert AtomOk(cfg, db, a);
    }
    assert images == indices;
    ImageCount(db, ids);
  }

  lemma {:induction false} ImageCount(db: Tables, ids: set<Id>)
    requires forall a | a in ids :: a in db.atoms
    requires forall a, b | a in ids && b in ids && db.atoms[a].index == db.atoms[b].index :: a == b
    ensures |set a | a in ids :: db.atoms[a].index| == |ids|
  {
    if ids != {} {
      var x :| x in ids;
      var rest := ids - {x};
      ImageCount(db, rest);
      assert (set a | a in ids :: db.atoms[a].index) == (set a | a in rest :: db.atoms[a].index) + {db.atoms[x].index};
    }
  }

  // --- Incremental equals fresh ------------------------------------------------------------

  predicate AtomsBuilt(cfg: Config, db: Tables) {
    forall d | d in db.documents :: Complete(cfg, db, d)
  }

  lemma AtomsEqualFresh(cfg: Config, db: Tables)
    requires Lawful(cfg, db) && AtomsBuilt(cfg, db) && db.triage.Keys == db.atoms.Keys
    ensures ViewOf(db).atoms == FreshView(cfg, db).atoms
  {
    forall r | r in ViewOf(db).atoms ensures r in FreshView(cfg, db).atoms {
      var a :| a in db.atoms && r == AtomRow(db.documents[db.atoms[a].doc].key, db.atoms[a].index, db.atoms[a].piece, db.triage[a]);
      assert AtomOk(cfg, db, a);
    }
    forall r | r in FreshView(cfg, db).atoms ensures r in ViewOf(db).atoms {
      var d, i :| d in db.documents && 0 <= i < |cfg.atomize(db.documents[d].text)| && r ==
        AtomRow(db.documents[d].key, i, cfg.atomize(db.documents[d].text)[i],
                RouteOf(cfg, db.documents[d].key.path, cfg.atomize(db.documents[d].text)[i].text));
      assert Complete(cfg, db, d) && HasAtom(db, d, i);
      var a :| a in db.atoms && db.atoms[a].doc == d && db.atoms[a].index == i;
      assert AtomOk(cfg, db, a);
    }
  }
}
