/** The catalogue transfer check (`catalogue_records` of `scripts/prefix/base-promt-compiler.py`):
    which exports are accepted, and why every dependency chain of an accepted versioned export
    stays inside the selection it starts in. */
module Catalogue {
  import opened Wrappers

  datatype Ref = Ref(uuid: string, classCode: int, version: int, checksum: string)

  datatype Document = Document(format: string, uuid: string, classCode: int, dependencies: seq<string>)

  /** `None` stands for JSON that is not exactly the four reference fields. */
  datatype Component = Component(reference: Option<Ref>, source: string)

  datatype Selection = Selection(format: string, components: seq<Option<Ref>>, recipe: Option<Ref>)

  datatype Export = Export(
    format: string, coverage: string, generation: string, catalogue: string, checksum: string,
    root: Option<Ref>, components: seq<Component>, selections: seq<string>)

  /** The parts outside the model: SHA-256 and the JSON reader with its shape tests. A reader that
      gives `None` is one that raises. */
  datatype Reader = Reader(
    sha: string -> string,
    isJson: string -> bool,
    document: string -> Option<Document>,
    selection: string -> Option<Selection>,
    transfer: string -> Option<Export>)

  /** Where a record is filed. */
  datatype Location = ComponentAt(uuid: string, version: int) | SelectionAt(digest: string) | ProvenanceAt(generation: string)

  datatype Record = Record(location: Location, content: string)

  const CAPACITY: nat := 64 * 1024 * 1024
  const FORMAT1 := "brassclaw-catalogue-source-export/1"
  const FORMAT2 := "brassclaw-catalogue-source-export/2"
  const COVERAGE1 := "active-ordinary-workflows-and-retained-root"
  const COVERAGE2 := "active-ordinary-plus-source-compiler-and-measurement-with-retained-root"

  // --- References --------------------------------------------------------------------------------

  predicate Hex(c: char) {
    '0' <= c <= '9' || 'a' <= c <= 'f'
  }

  predicate Hyphen(i: int) {
    i == 8 || i == 13 || i == 18 || i == 23
  }

  /** `str(uuid.UUID(s)) == s`, and not the nil UUID. */
  predicate CanonicalUuid(s: string) {
    && |s| == 36
    && (forall i | 0 <= i < 36 :: if Hyphen(i) then s[i] == '-' else Hex(s[i]))
    && (exists i | 0 <= i < 36 :: !Hyphen(i) && s[i] != '0')
  }

  predicate Pinned(r: Ref) {
    && CanonicalUuid(r.uuid)
    && (0 <= r.classCode <= 10 || 12 <= r.classCode <= 23 || r.classCode == 50)
    && 0 < r.version <= 0x7fff_ffff_ffff_ffff
    && |r.checksum| == 64 && (forall i | 0 <= i < 64 :: Hex(r.checksum[i]))
  }

  predicate PinnedRef(r: Option<Ref>) {
    r.Some? && Pinned(r.value)
  }

  datatype Key = Revision(uuid: string, version: int) | Named(uuid: string)

  function KeyOf(versioned: bool, r: Ref): Key {
    if versioned then Revision(r.uuid, r.version) else Named(r.uuid)
  }

  // --- What is accepted --------------------------------------------------------------------------

  predicate SoundDocument(d: Document, r: Ref) {
    d.format == "component-revision/1" && d.uuid == r.uuid && d.classCode == r.classCode
  }

  predicate Sound(rd: Reader, c: Component) {
    && PinnedRef(c.reference)
    && rd.sha(c.source) == c.reference.value.checksum
    && rd.document(c.source).Some?
    && SoundDocument(rd.document(c.source).value, c.reference.value)
  }

  predicate AllSound(rd: Reader, cs: seq<Component>) {
    forall i {:trigger Sound(rd, cs[i])} | 0 <= i < |cs| :: Sound(rd, cs[i])
  }

  /** Different keys, and one class for every revision of a component. */
  predicate Compatible(versioned: bool, a: Component, b: Component) {
    a.reference.Some? && b.reference.Some? ==>
      && KeyOf(versioned, a.reference.value) != KeyOf(versioned, b.reference.value)
      && (a.reference.value.uuid == b.reference.value.uuid ==> a.reference.value.classCode == b.reference.value.classCode)
  }

  predicate AllCompatible(versioned: bool, cs: seq<Component>) {
    forall i, j {:trigger Compatible(versioned, cs[i], cs[j])} | 0 <= i < j < |cs| :: Compatible(versioned, cs[i], cs[j])
  }

  predicate ComponentsAccepted(rd: Reader, versioned: bool, cs: seq<Component>) {
    AllSound(rd, cs) && AllCompatible(versioned, cs)
  }

  /** The reference appears, field for field, among the components. */
  predicate Carried(cs: seq<Component>, r: Ref) {
    exists i | 0 <= i < |cs| :: cs[i].reference == Some(r)
  }

  /** Some revision carries this UUID. */
  predicate CarriedName(cs: seq<Component>, uuid: string) {
    exists i | 0 <= i < |cs| :: HasName(cs[i], uuid)
  }

  predicate HasName(c: Component, uuid: string) {
    c.reference.Some? && c.reference.value.uuid == uuid
  }

  /** A dependency of the revision `r`, read from its own bytes. */
  predicate DependsOn(rd: Reader, cs: seq<Component>, r: Ref, uuid: string) {
    exists i | 0 <= i < |cs| :: cs[i].reference == Some(r) && Requires(rd, cs[i].source, uuid)
  }

  predicate Requires(rd: Reader, source: string, uuid: string) {
    rd.document(source).Some? && uuid in rd.document(source).value.dependencies
  }

  predicate Selects(s: Selection, r: Ref) {
    Some(r) in s.components
  }

  predicate SelectsName(s: Selection, uuid: string) {
    NamePicked(s.components, uuid)
  }

  predicate HasUuid(r: Option<Ref>, uuid: string) {
    r.Some? && r.value.uuid == uuid
  }

  predicate NamePicked(refs: seq<Option<Ref>>, uuid: string) {
    exists k {:trigger HasUuid(refs[k], uuid)} | 0 <= k < |refs| :: HasUuid(refs[k], uuid)
  }

  predicate Member(cs: seq<Component>, r: Option<Ref>) {
    PinnedRef(r) && Carried(cs, r.value)
  }

  predicate OtherUuid(a: Option<Ref>, b: Option<Ref>) {
    a.Some? && b.Some? ==> a.value.uuid != b.value.uuid
  }

  predicate MembersAccepted(cs: seq<Component>, refs: seq<Option<Ref>>) {
    && (forall k {:trigger Member(cs, refs[k])} | 0 <= k < |refs| :: Member(cs, refs[k]))
    && (forall k, l {:trigger OtherUuid(refs[k], refs[l])} | 0 <= k < l < |refs| :: OtherUuid(refs[k], refs[l]))
  }

  ghost predicate Closed(rd: Reader, cs: seq<Component>, s: Selection) {
    forall r: Ref, uuid: string | Selects(s, r) && DependsOn(rd, cs, r, uuid) :: SelectsName(s, uuid)
  }

  ghost predicate SelectionAccepted(rd: Reader, versioned: bool, cs: seq<Component>, s: Selection) {
    && s.format == "monty-retained-recipe-selection/1"
    && MembersAccepted(cs, s.components)
    && PinnedRef(s.recipe) && Selects(s, s.recipe.value)
    && (versioned ==> Closed(rd, cs, s))
  }

  ghost predicate SelectionsAccepted(rd: Reader, versioned: bool, cs: seq<Component>, sources: seq<string>) {
    && (forall i, j | 0 <= i < j < |sources| :: sources[i] != sources[j])
    && (forall i | 0 <= i < |sources| :: SourceAccepted(rd, versioned, cs, sources[i]))
  }

  ghost predicate SourceAccepted(rd: Reader, versioned: bool, cs: seq<Component>, source: string) {
    rd.selection(source).Some? && SelectionAccepted(rd, versioned, cs, rd.selection(source).value)
  }

  /** The reference is one of the retained selections' members. */
  predicate Chosen(rd: Reader, sources: seq<string>, r: Ref) {
    exists i | 0 <= i < |sources| :: SourceSelects(rd, sources[i], r)
  }

  predicate SourceSelects(rd: Reader, source: string, r: Ref) {
    rd.selection(source).Some? && Selects(rd.selection(source).value, r)
  }

  predicate EnvelopeAccepted(rd: Reader, e: Export) {
    && ((e.format == FORMAT1 && e.coverage == COVERAGE1) || (e.format == FORMAT2 && e.coverage == COVERAGE2))
    && CanonicalUuid(e.generation)
    && rd.sha(e.catalogue) == e.checksum && rd.isJson(e.catalogue)
    && e.components != []
  }

  ghost predicate RootAccepted(rd: Reader, versioned: bool, e: Export) {
    && PinnedRef(e.root) && Carried(e.components, e.root.value)
    && (versioned ==> forall uuid: string :: !DependsOn(rd, e.components, e.root.value, uuid))
    && (!versioned ==> forall r: Ref, uuid: string | Carried(e.components, r) && DependsOn(rd, e.components, r, uuid) ::
          CarriedName(e.components, uuid))
  }

  /** Nothing is carried that no one selected. */
  ghost predicate Covered(rd: Reader, e: Export) {
    e.root.Some? && forall r: Ref | Carried(e.components, r) :: r == e.root.value || Chosen(rd, e.selections, r)
  }

  predicate Versioned(e: Export) {
    e.format == FORMAT2
  }

  /** The declarative form of the whole check. */
  ghost predicate Accepted(rd: Reader, e: Export) {
    && EnvelopeAccepted(rd, e)
    && ComponentsAccepted(rd, Versioned(e), e.components)
    && RootAccepted(rd, Versioned(e), e)
    && e.selections != []
    && SelectionsAccepted(rd, Versioned(e), e.components, e.selections)
    && Covered(rd, e)
  }

  // --- The closure theorem -----------------------------------------------------------------------

  /** `path` follows `names`, one dependency after the other, through revisions of the selection. */
  ghost predicate Path(rd: Reader, e: Export, s: Selection, start: Ref, names: seq<string>, path: seq<Ref>) {
    && |path| == |names| + 1 && path[0] == start
    && (forall i | 0 <= i < |path| :: Selects(s, path[i]))
    && (forall i | 0 <= i < |names| :: path[i + 1].uuid == names[i] && DependsOn(rd, e.components, path[i], names[i]))
  }

  /** Each name is a dependency of any revision that the selection pins for the one before it. That
      there is such a revision is not presupposed: past an unresolved name anything may follow. */
  ghost predicate Chain(rd: Reader, e: Export, s: Selection, start: Ref, names: seq<string>)
    decreases |names|
  {
    names == [] || (
      && DependsOn(rd, e.components, start, names[0])
      && forall r: Ref | Selects(s, r) && r.uuid == names[0] :: Chain(rd, e, s, r, names[1..]))
  }

  /** A selection pins at most one revision of a component. */
  lemma OneRevision(cs: seq<Component>, s: Selection, a: Ref, b: Ref)
    requires MembersAccepted(cs, s.components) && Selects(s, a) && Selects(s, b) && a.uuid == b.uuid
    ensures a == b
  {
    var k :| 0 <= k < |s.components| && s.components[k] == Some(a);
    var l :| 0 <= l < |s.components| && s.components[l] == Some(b);
    assert OtherUuid(s.components[k], s.components[l]) || OtherUuid(s.components[l], s.components[k]) || k == l;
  }

  /** Every dependency chain of any length from a selected component of an accepted versioned export
      resolves, to revisions pinned by the same selection. */
  lemma {:induction false} ChainResolves(rd: Reader, e: Export, source: string, start: Ref, names: seq<string>) returns (path: seq<Ref>)
    requires Accepted(rd, e) && Versioned(e) && source in e.selections
    requires SourceSelects(rd, source, start)
    requires Chain(rd, e, rd.selection(source).value, start, names)
    ensures Path(rd, e, rd.selection(source).value, start, names, path)
    decreases |names|
  {
    var s := rd.selection(source).value;
    if names == [] {
      path := [start];
    } else {
      AcceptedSource(rd, e, source);
      assert SelectsName(s, names[0]);
      var k :| 0 <= k < |s.components| && HasUuid(s.components[k], names[0]);
      var next := s.components[k].value;
      assert s.components[k] == Some(next);
      assert Selects(s, next);
      var rest := ChainResolves(rd, e, source, next, names[1..]);
      path := [start] + rest;
      PathFront(rd, e, s, start, names, rest);
    }
  }

  lemma PathFront(rd: Reader, e: Export, s: Selection, start: Ref, names: seq<string>, rest: seq<Ref>)
    requires names != [] && Selects(s, start) && DependsOn(rd, e.components, start, names[0])
    requires rest != [] && rest[0].uuid == names[0] && Path(rd, e, s, rest[0], names[1..], rest)
    ensures Path(rd, e, s, start, names, [start] + rest)
  {
    var path := [start] + rest;
    forall i | 0 <= i < |names|
      ensures path[i + 1].uuid == names[i] && DependsOn(rd, e.components, path[i], names[i])
    {
      assert path[i + 1] == rest[i];
      if i > 0 {
        assert names[1..][i - 1] == names[i] && path[i] == rest[i - 1] && rest[i - 1 + 1].uuid == names[1..][i - 1];
      }
    }
  }

  lemma AcceptedSource(rd: Reader, e: Export, source: string)
    requires Accepted(rd, e) && source in e.selections
    ensures SourceAccepted(rd, Versioned(e), e.components, source)
  {
    var i :| 0 <= i < |e.selections| && e.selections[i] == source;
  }

  /** The resolution is unique: exactly one pinned revision at every link. */
  lemma {:induction false} ChainUnique(rd: Reader, e: Export, source: string, start: Ref, names: seq<string>, p: seq<Ref>, q: seq<Ref>)
    requires Accepted(rd, e) && source in e.selections && rd.selection(source).Some?
    requires Path(rd, e, rd.selection(source).value, start, names, p)
    requires Path(rd, e, rd.selection(source).value, start, names, q)
    ensures p == q
  {
    var s := rd.selection(source).value;
    AcceptedSource(rd, e, source);
    forall i | 0 <= i < |p|
      ensures p[i] == q[i]
    {
      if i > 0 {
        assert p[i - 1 + 1].uuid == names[i - 1] && q[i - 1 + 1].uuid == names[i - 1];
        assert Selects(s, p[i]) && Selects(s, q[i]);
        OneRevision(e.components, s, p[i], q[i]);
      }
    }
  }

  // --- The check itself --------------------------------------------------------------------------

  /** The dictionaries the component loop fills. */
  datatype Index = Index(references: map<Key, Ref>, documents: map<Key, Document>, classes: map<string, int>)

  ghost predicate HasKey(versioned: bool, c: Component, k: Key) {
    c.reference.Some? && KeyOf(versioned, c.reference.value) == k
  }

  ghost predicate Entered(rd: Reader, versioned: bool, c: Component, ix: Index) {
    c.reference.Some? && rd.document(c.source).Some? &&
    var k := KeyOf(versioned, c.reference.value);
    && k in ix.references && ix.references[k] == c.reference.value
    && k in ix.documents && ix.documents[k] == rd.document(c.source).value
    && c.reference.value.uuid in ix.classes && ix.classes[c.reference.value.uuid] == c.reference.value.classCode
  }

  ghost predicate AllEntered(rd: Reader, versioned: bool, cs: seq<Component>, ix: Index) {
    forall i {:trigger Entered(rd, versioned, cs[i], ix)} | 0 <= i < |cs| :: Entered(rd, versioned, cs[i], ix)
  }

  ghost predicate KeyCarried(versioned: bool, cs: seq<Component>, k: Key) {
    exists i {:trigger HasKey(versioned, cs[i], k)} | 0 <= i < |cs| :: HasKey(versioned, cs[i], k)
  }

  ghost predicate OnlyEntered(versioned: bool, cs: seq<Component>, ix: Index) {
    && (forall k | k in ix.references :: KeyCarried(versioned, cs, k))
    && (forall u | u in ix.classes :: CarriedName(cs, u))
  }

  ghost predicate Indexes(rd: Reader, versioned: bool, cs: seq<Component>, ix: Index) {
    ComponentsAccepted(rd, versioned, cs) && AllEntered(rd, versioned, cs, ix) && OnlyEntered(versioned, cs, ix)
  }

  lemma AddedAccepted(rd: Reader, versioned: bool, before: seq<Component>, c: Component, ix: Index)
    requires Indexes(rd, versioned, before, ix) && Sound(rd, c)
    requires KeyOf(versioned, c.reference.value) !in ix.references
    requires c.reference.value.uuid in ix.classes ==> ix.classes[c.reference.value.uuid] == c.reference.value.classCode
    ensures ComponentsAccepted(rd, versioned, before + [c])
  {
    var cs := before + [c];
    forall i | 0 <= i < |cs|
      ensures Sound(rd, cs[i])
    {
      assert i < |before| ==> Sound(rd, before[i]);
    }
    forall i, j | 0 <= i < j < |cs|
      ensures Compatible(versioned, cs[i], cs[j])
    {
      assert cs[i] == before[i] && Entered(rd, versioned, before[i], ix);
      assert j < |before| ==> Compatible(versioned, before[i], before[j]);
    }
  }

  lemma AddedSound(rd: Reader, versioned: bool, before: seq<Component>, c: Component, ix: Index)
    requires Indexes(rd, versioned, before, ix) && ComponentsAccepted(rd, versioned, before + [c])
    ensures Sound(rd, c)
    ensures KeyOf(versioned, c.reference.value) !in ix.references
    ensures c.reference.value.uuid in ix.classes ==> ix.classes[c.reference.value.uuid] == c.reference.value.classCode
  {
    var cs, n := before + [c], |before|;
    assert cs[n] == c && Sound(rd, cs[n]);
    var k := KeyOf(versioned, c.reference.value);
    forall i | 0 <= i < n
      ensures !HasKey(versioned, before[i], k)
    {
      assert cs[i] == before[i] && Compatible(versioned, cs[i], cs[n]);
    }
    assert !KeyCarried(versioned, before, k);
    var u := c.reference.value.uuid;
    if u in ix.classes {
      var i :| 0 <= i < n && HasName(before[i], u);
      assert cs[i] == before[i] && Compatible(versioned, cs[i], cs[n]) && Entered(rd, versioned, before[i], ix);
    }
  }

  lemma CarriedMore(cs: seq<Component>, c: Component, uuid: string)
    ensures CarriedName(cs, uuid) ==> CarriedName(cs + [c], uuid)
    ensures HasName(c, uuid) ==> CarriedName(cs + [c], uuid)
  {
    var all := cs + [c];
    assert all[|cs|] == c;
    if CarriedName(cs, uuid) {
      var i :| 0 <= i < |cs| && HasName(cs[i], uuid);
      assert HasName(all[i], uuid);
    }
  }

  lemma KeyCarriedMore(versioned: bool, cs: seq<Component>, c: Component, k: Key)
    ensures KeyCarried(versioned, cs, k) ==> KeyCarried(versioned, cs + [c], k)
    ensures HasKey(versioned, c, k) ==> KeyCarried(versioned, cs + [c], k)
  {
    var all := cs + [c];
    assert all[|cs|] == c;
    if HasKey(versioned, c, k) {
      assert HasKey(versioned, all[|cs|], k);
    }
    if KeyCarried(versioned, cs, k) {
      var i :| 0 <= i < |cs| && HasKey(versioned, cs[i], k);
      assert HasKey(versioned, all[i], k);
    }
  }

  function Enter(rd: Reader, versioned: bool, c: Component, ix: Index): Index
    requires Sound(rd, c)
  {
    var ref := c.reference.value;
    var k := KeyOf(versioned, ref);
    Index(ix.references[k := ref], ix.documents[k := rd.document(c.source).value], ix.classes[ref.uuid := ref.classCode])
  }

  lemma EnteredAll(rd: Reader, versioned: bool, before: seq<Component>, c: Component, ix: Index)
    requires AllEntered(rd, versioned, before, ix) && ComponentsAccepted(rd, versioned, before + [c]) && Sound(rd, c)
    ensures AllEntered(rd, versioned, before + [c], Enter(rd, versioned, c, ix))
  {
    var cs, ix' := before + [c], Enter(rd, versioned, c, ix);
    var n := |before|;
    assert cs[n] == c;
    forall i | 0 <= i < |cs|
      ensures Entered(rd, versioned, cs[i], ix')
    {
      if i < n {
        assert cs[i] == before[i] && Entered(rd, versioned, before[i], ix);
        assert Compatible(versioned, cs[i], cs[n]);
      }
    }
  }

  lemma EnteredOnly(rd: Reader, versioned: bool, before: seq<Component>, c: Component, ix: Index)
    requires OnlyEntered(versioned, before, ix) && Sound(rd, c)
    ensures OnlyEntered(versioned, before + [c], Enter(rd, versioned, c, ix))
  {
    var ix' := Enter(rd, versioned, c, ix);
    forall k | k in ix'.references
      ensures KeyCarried(versioned, before + [c], k)
    {
      assert k in ix.references ==> KeyCarried(versioned, before, k);
      KeyCarriedMore(versioned, before, c, k);
    }
    forall u | u in ix'.classes
      ensures CarriedName(before + [c], u)
    {
      assert u in ix.classes ==> CarriedName(before, u);
      CarriedMore(before, c, u);
    }
  }

  /** One pass of the component loop: refused exactly when the components so far are. */
  method AddComponent(rd: Reader, versioned: bool, ghost before: seq<Component>, c: Component, ix: Index) returns (r: Result<Index>)
    requires Indexes(rd, versioned, before, ix)
    ensures r.Ok? <==> ComponentsAccepted(rd, versioned, before + [c])
    ensures r.Ok? ==> Indexes(rd, versioned, before + [c], r.value) && c.reference.Some?
  {
    if ComponentsAccepted(rd, versioned, before + [c]) {
      AddedSound(rd, versioned, before, c, ix);
    }
    if !PinnedRef(c.reference) {
      return Raised;
    }
    var ref := c.reference.value;
    var k := KeyOf(versioned, ref);
    if k in ix.references {
      return Raised;
    }
    if ref.uuid in ix.classes && ix.classes[ref.uuid] != ref.classCode {
      return Raised;
    }
    if !Sound(rd, c) {
      return Raised;
    }
    AddedAccepted(rd, versioned, before, c, ix);
    EnteredAll(rd, versioned, before, c, ix);
    EnteredOnly(rd, versioned, before, c, ix);
    r := Ok(Enter(rd, versioned, c, ix));
  }

  /** A component is filed under its name and version, with its exact source. */
  predicate FiledComponent(c: Component, r: Record) {
    c.reference.Some? && r == Record(ComponentAt(c.reference.value.uuid, c.reference.value.version), c.source)
  }

  predicate FiledComponents(cs: seq<Component>, records: seq<Record>) {
    |records| == |cs| && forall i | 0 <= i < |cs| :: FiledComponent(cs[i], records[i])
  }

  /** The component loop: the dictionaries, and one record after the other. */
  method IndexComponents(rd: Reader, versioned: bool, cs: seq<Component>) returns (r: Result<Index>, records: seq<Record>)
    ensures r.Ok? <==> ComponentsAccepted(rd, versioned, cs)
    ensures r.Ok? ==> Indexes(rd, versioned, cs, r.value) && FiledComponents(cs, records)
  {
    var ix := Index(map[], map[], map[]);
    records := [];
    for i := 0 to |cs|
      invariant Indexes(rd, versioned, cs[..i], ix)
      invariant |records| == i && forall k | 0 <= k < i :: FiledComponent(cs[k], records[k])
    {
      assert cs[..i] + [cs[i]] == cs[..i + 1];
      var next := AddComponent(rd, versioned, cs[..i], cs[i], ix);
      if next.Raised? {
        AcceptedPrefix(rd, versioned, cs, i + 1);
        return Raised, records;
      }
      ix := next.value;
      var ref := cs[i].reference.value;
      records := records + [Record(ComponentAt(ref.uuid, ref.version), cs[i].source)];
    }
    assert cs[..|cs|] == cs;
    r := Ok(ix);
  }

  lemma AcceptedPrefix(rd: Reader, versioned: bool, cs: seq<Component>, n: nat)
    requires n <= |cs|
    ensures ComponentsAccepted(rd, versioned, cs) ==> ComponentsAccepted(rd, versioned, cs[..n])
  {
    if ComponentsAccepted(rd, versioned, cs) {
      assert forall i | 0 <= i < n :: Sound(rd, cs[i]);
      assert forall i, j | 0 <= i < j < n :: Compatible(versioned, cs[i], cs[j]);
    }
  }

  /** What the dictionaries answer. */
  lemma Lookup(rd: Reader, versioned: bool, cs: seq<Component>, ix: Index, r: Ref)
    requires Indexes(rd, versioned, cs, ix)
    ensures Carried(cs, r) <==> KeyOf(versioned, r) in ix.references && ix.references[KeyOf(versioned, r)] == r
    ensures Carried(cs, r) ==> KeyOf(versioned, r) in ix.documents
  {
    var k := KeyOf(versioned, r);
    if Carried(cs, r) {
      var i :| 0 <= i < |cs| && cs[i].reference == Some(r);
      assert Entered(rd, versioned, cs[i], ix);
    }
    if k in ix.references && ix.references[k] == r {
      assert KeyCarried(versioned, cs, k);
      var i :| 0 <= i < |cs| && HasKey(versioned, cs[i], k);
      assert Entered(rd, versioned, cs[i], ix);
    }
  }

  lemma LookupDependency(rd: Reader, versioned: bool, cs: seq<Component>, ix: Index, r: Ref, uuid: string)
    requires Indexes(rd, versioned, cs, ix) && Carried(cs, r) && KeyOf(versioned, r) in ix.documents
    ensures DependsOn(rd, cs, r, uuid) <==> uuid in ix.documents[KeyOf(versioned, r)].dependencies
  {
    var i :| 0 <= i < |cs| && cs[i].reference == Some(r);
    assert Entered(rd, versioned, cs[i], ix);
    if DependsOn(rd, cs, r, uuid) {
      var j :| 0 <= j < |cs| && cs[j].reference == Some(r) && Requires(rd, cs[j].source, uuid);
      assert Entered(rd, versioned, cs[j], ix);
    } else {
      assert !Requires(rd, cs[i].source, uuid);
    }
  }

  // --- Selections --------------------------------------------------------------------------------

  ghost predicate HasId(versioned: bool, r: Option<Ref>, k: Key) {
    r.Some? && KeyOf(versioned, r.value) == k
  }

  ghost predicate IdPicked(versioned: bool, refs: seq<Option<Ref>>, id: Key) {
    exists k {:trigger HasId(versioned, refs[k], id)} | 0 <= k < |refs| :: HasId(versioned, refs[k], id)
  }

  /** `local_ids` and `local_uuids` hold exactly the keys and UUIDs of these references. */
  ghost predicate Picks(versioned: bool, refs: seq<Option<Ref>>, ids: set<Key>, uuids: set<string>) {
    && (forall id :: id in ids <==> IdPicked(versioned, refs, id))
    && (forall u :: u in uuids <==> NamePicked(refs, u))
  }

  lemma IdPickedMore(versioned: bool, refs: seq<Option<Ref>>, r: Option<Ref>, id: Key)
    ensures IdPicked(versioned, refs + [r], id) <==> IdPicked(versioned, refs, id) || HasId(versioned, r, id)
  {
    var all := refs + [r];
    assert all[|refs|] == r;
    if IdPicked(versioned, refs, id) {
      var k :| 0 <= k < |refs| && HasId(versioned, refs[k], id);
      assert HasId(versioned, all[k], id);
    } else if HasId(versioned, r, id) {
      assert HasId(versioned, all[|refs|], id);
    } else {
      assert forall k | 0 <= k < |refs| :: all[k] == refs[k] && !HasId(versioned, refs[k], id);
    }
  }

  lemma NamePickedMore(refs: seq<Option<Ref>>, r: Option<Ref>, u: string)
    ensures NamePicked(refs + [r], u) <==> NamePicked(refs, u) || HasUuid(r, u)
  {
    var all := refs + [r];
    assert all[|refs|] == r;
    if NamePicked(refs, u) {
      var k :| 0 <= k < |refs| && HasUuid(refs[k], u);
      assert HasUuid(all[k], u);
    } else if HasUuid(r, u) {
      assert HasUuid(all[|refs|], u);
    } else {
      assert forall k | 0 <= k < |refs| :: all[k] == refs[k] && !HasUuid(refs[k], u);
    }
  }

  lemma PicksMore(versioned: bool, refs: seq<Option<Ref>>, ids: set<Key>, uuids: set<string>, r: Ref)
    requires Picks(versioned, refs, ids, uuids)
    ensures Picks(versioned, refs + [Some(r)], ids + {KeyOf(versioned, r)}, uuids + {r.uuid})
  {
    forall id
      ensures id in ids + {KeyOf(versioned, r)} <==> IdPicked(versioned, refs + [Some(r)], id)
    {
      IdPickedMore(versioned, refs, Some(r), id);
    }
    forall u
      ensures u in uuids + {r.uuid} <==> NamePicked(refs + [Some(r)], u)
    {
      NamePickedMore(refs, Some(r), u);
    }
  }

  lemma MembersStep(cs: seq<Component>, refs: seq<Option<Ref>>, r: Option<Ref>)
    requires MembersAccepted(cs, refs)
    ensures MembersAccepted(cs, refs + [r]) <==> Member(cs, r) && !NamePicked(refs, r.value.uuid)
  {
    var all, n := refs + [r], |refs|;
    assert all[n] == r;
    if Member(cs, r) && !NamePicked(refs, r.value.uuid) {
      forall k | 0 <= k < |all|
        ensures Member(cs, all[k])
      {
        assert k < n ==> Member(cs, refs[k]);
      }
      forall k, l | 0 <= k < l < |all|
        ensures OtherUuid(all[k], all[l])
      {
        assert all[k] == refs[k] && !HasUuid(refs[k], r.value.uuid);
        assert l < n ==> OtherUuid(refs[k], refs[l]);
      }
    }
    if MembersAccepted(cs, all) {
      assert Member(cs, all[n]);
      forall k | 0 <= k < n
        ensures !HasUuid(refs[k], r.value.uuid)
      {
        assert all[k] == refs[k] && OtherUuid(all[k], all[n]);
      }
    }
  }

  lemma MembersPrefix(cs: seq<Component>, refs: seq<Option<Ref>>, n: nat)
    requires n <= |refs|
    ensures MembersAccepted(cs, refs) ==> MembersAccepted(cs, refs[..n])
  {
    if MembersAccepted(cs, refs) {
      assert forall k | 0 <= k < n :: Member(cs, refs[k]);
      assert forall k, l | 0 <= k < l < n :: OtherUuid(refs[k], refs[l]);
    }
  }

  /** The member loop of one selection. */
  method PickMembers(ghost rd: Reader, versioned: bool, ghost cs: seq<Component>, ix: Index, refs: seq<Option<Ref>>)
      returns (ok: bool, ids: set<Key>, uuids: set<string>)
    requires Indexes(rd, versioned, cs, ix)
    ensures ok <==> MembersAccepted(cs, refs)
    ensures ok ==> Picks(versioned, refs, ids, uuids)
  {
    ids, uuids := {}, {};
    for k := 0 to |refs|
      invariant MembersAccepted(cs, refs[..k]) && Picks(versioned, refs[..k], ids, uuids)
    {
      MembersStep(cs, refs[..k], refs[k]);
      assert refs[..k] + [refs[k]] == refs[..k + 1];
      MembersPrefix(cs, refs, k + 1);
      if !PinnedRef(refs[k]) {
        return false, ids, uuids;
      }
      var r := refs[k].value;
      var id := KeyOf(versioned, r);
      Lookup(rd, versioned, cs, ix, r);
      if r.uuid in uuids || id !in ix.references || ix.references[id] != r {
        return false, ids, uuids;
      }
      PicksMore(versioned, refs[..k], ids, uuids, r);
      ids, uuids := ids + {id}, uuids + {r.uuid};
    }
    assert refs[..|refs|] == refs;
    ok := true;
  }

  lemma PickedId(rd: Reader, versioned: bool, cs: seq<Component>, ix: Index, refs: seq<Option<Ref>>, id: Key)
    requires Indexes(rd, versioned, cs, ix) && MembersAccepted(cs, refs) && IdPicked(versioned, refs, id)
    ensures id in ix.references && id in ix.documents && KeyOf(versioned, ix.references[id]) == id
    ensures Some(ix.references[id]) in refs && Carried(cs, ix.references[id])
  {
    var k :| 0 <= k < |refs| && HasId(versioned, refs[k], id);
    assert Member(cs, refs[k]);
    Lookup(rd, versioned, cs, ix, refs[k].value);
    assert refs[k] == Some(ix.references[id]);
  }

  lemma PickedRef(rd: Reader, versioned: bool, cs: seq<Component>, ix: Index, refs: seq<Option<Ref>>, r: Ref)
    requires Indexes(rd, versioned, cs, ix) && MembersAccepted(cs, refs) && Some(r) in refs
    ensures IdPicked(versioned, refs, KeyOf(versioned, r)) && Carried(cs, r)
    ensures KeyOf(versioned, r) in ix.references && ix.references[KeyOf(versioned, r)] == r
  {
    var k :| 0 <= k < |refs| && refs[k] == Some(r);
    assert Member(cs, refs[k]) && HasId(versioned, refs[k], KeyOf(versioned, r));
    Lookup(rd, versioned, cs, ix, r);
  }

  lemma PicksExact(rd: Reader, versioned: bool, cs: seq<Component>, ix: Index, s: Selection, ids: set<Key>, uuids: set<string>)
    requires Indexes(rd, versioned, cs, ix) && MembersAccepted(cs, s.components) && Picks(versioned, s.components, ids, uuids)
    ensures forall id | id in ids :: id in ix.references && id in ix.documents && KeyOf(versioned, ix.references[id]) == id
    ensures forall r: Ref :: Selects(s, r) <==> KeyOf(versioned, r) in ids && ix.references[KeyOf(versioned, r)] == r
  {
    forall id | id in ids
      ensures id in ix.references && id in ix.documents && Selects(s, ix.references[id]) && KeyOf(versioned, ix.references[id]) == id
    {
      PickedId(rd, versioned, cs, ix, s.components, id);
    }
    forall r: Ref | Selects(s, r)
      ensures KeyOf(versioned, r) in ids && ix.references[KeyOf(versioned, r)] == r
    {
      PickedRef(rd, versioned, cs, ix, s.components, r);
    }
  }

  /** The dependency test over the dictionaries is closure of the selection. */
  lemma ClosedExact(rd: Reader, versioned: bool, cs: seq<Component>, ix: Index, s: Selection, ids: set<Key>, uuids: set<string>)
    requires Indexes(rd, versioned, cs, ix) && MembersAccepted(cs, s.components) && Picks(versioned, s.components, ids, uuids)
    requires forall id | id in ids :: id in ix.documents
    ensures Closed(rd, cs, s) <==> forall id | id in ids :: DependenciesIn(ix.documents[id], uuids)
  {
    if Closed(rd, cs, s) {
      forall id | id in ids
        ensures DependenciesIn(ix.documents[id], uuids)
      {
        PickedId(rd, versioned, cs, ix, s.components, id);
        var r := ix.references[id];
        forall u | u in ix.documents[id].dependencies
          ensures u in uuids
        {
          LookupDependency(rd, versioned, cs, ix, r, u);
          assert Selects(s, r) && SelectsName(s, u);
        }
      }
    }
    if forall id | id in ids :: DependenciesIn(ix.documents[id], uuids) {
      forall r: Ref, u: string | Selects(s, r) && DependsOn(rd, cs, r, u)
        ensures SelectsName(s, u)
      {
        PickedRef(rd, versioned, cs, ix, s.components, r);
        LookupDependency(rd, versioned, cs, ix, r, u);
        assert DependenciesIn(ix.documents[KeyOf(versioned, r)], uuids);
      }
    }
  }

  predicate DependenciesIn(d: Document, uuids: set<string>) {
    forall u | u in d.dependencies :: u in uuids
  }

  /** One retained selection; the keys it selects are returned. */
  method CheckSelection(rd: Reader, versioned: bool, ghost cs: seq<Component>, ix: Index, s: Selection) returns (r: Result<set<Key>>)
    requires Indexes(rd, versioned, cs, ix)
    ensures r.Ok? <==> SelectionAccepted(rd, versioned, cs, s)
    ensures r.Ok? ==> forall c: Ref :: Selects(s, c) <==> KeyOf(versioned, c) in r.value && Carried(cs, c)
    ensures r.Ok? ==> forall id | id in r.value :: id in ix.references
  {
    if s.format != "monty-retained-recipe-selection/1" {
      return Raised;
    }
    var ok, ids, uuids := PickMembers(rd, versioned, cs, ix, s.components);
    if !ok || !PinnedRef(s.recipe) {
      return Raised;
    }
    PicksExact(rd, versioned, cs, ix, s, ids, uuids);
    var id := KeyOf(versioned, s.recipe.value);
    if id !in ids || s.recipe.value != ix.references[id] {
      return Raised;
    }
    ClosedExact(rd, versioned, cs, ix, s, ids, uuids);
    if versioned && exists id | id in ids :: !DependenciesIn(ix.documents[id], uuids) {
      return Raised;
    }
    r := Ok(ids);
    forall c: Ref
      ensures Selects(s, c) <==> KeyOf(versioned, c) in ids && Carried(cs, c)
    {
      Lookup(rd, versioned, cs, ix, c);
    }
  }

  // --- The whole transfer --------------------------------------------------------------------------

  /** The selected keys are those of the root and of the selections' members. */
  ghost predicate Tally(rd: Reader, versioned: bool, cs: seq<Component>, ix: Index, root: Ref, sources: seq<string>, ids: set<Key>) {
    && (forall id | id in ids :: id in ix.references)
    && (forall c: Ref | Carried(cs, c) :: KeyOf(versioned, c) in ids <==> c == root || Chosen(rd, sources, c))
  }

  lemma ChosenMore(rd: Reader, sources: seq<string>, source: string, c: Ref)
    ensures Chosen(rd, sources + [source], c) <==> Chosen(rd, sources, c) || SourceSelects(rd, source, c)
  {
    var all := sources + [source];
    assert all[|sources|] == source;
    if Chosen(rd, sources, c) {
      var i :| 0 <= i < |sources| && SourceSelects(rd, sources[i], c);
      assert SourceSelects(rd, all[i], c);
    } else {
      assert forall i | 0 <= i < |sources| :: all[i] == sources[i] && !SourceSelects(rd, sources[i], c);
    }
  }

  lemma TallyMore(rd: Reader, versioned: bool, cs: seq<Component>, ix: Index, root: Ref, sources: seq<string>, ids: set<Key>, source: string, more: set<Key>)
    requires Tally(rd, versioned, cs, ix, root, sources, ids) && rd.selection(source).Some?
    requires forall id | id in more :: id in ix.references
    requires forall c: Ref :: Selects(rd.selection(source).value, c) <==> KeyOf(versioned, c) in more && Carried(cs, c)
    ensures Tally(rd, versioned, cs, ix, root, sources + [source], ids + more)
  {
    forall c: Ref | Carried(cs, c)
      ensures KeyOf(versioned, c) in ids + more <==> c == root || Chosen(rd, sources + [source], c)
    {
      ChosenMore(rd, sources, source, c);
    }
  }

  lemma SelectionsMore(rd: Reader, versioned: bool, cs: seq<Component>, sources: seq<string>, source: string)
    requires SelectionsAccepted(rd, versioned, cs, sources)
    ensures SelectionsAccepted(rd, versioned, cs, sources + [source]) <==> source !in sources && SourceAccepted(rd, versioned, cs, source)
  {
    var all := sources + [source];
    assert all[|sources|] == source && forall i | 0 <= i < |sources| :: all[i] == sources[i];
    if source in sources {
      var i :| 0 <= i < |sources| && sources[i] == source;
      assert all[i] == all[|sources|];
    }
  }

  lemma SelectionsPrefix(rd: Reader, versioned: bool, cs: seq<Component>, sources: seq<string>, n: nat)
    requires n <= |sources|
    ensures SelectionsAccepted(rd, versioned, cs, sources) ==> SelectionsAccepted(rd, versioned, cs, sources[..n])
  {
  }

  /** A selection is filed under its digest, with its exact source. */
  predicate FiledSelection(rd: Reader, source: string, r: Record) {
    r == Record(SelectionAt(rd.sha(source)), source)
  }

  predicate FiledSelections(rd: Reader, sources: seq<string>, records: seq<Record>) {
    |records| == |sources| && forall i | 0 <= i < |sources| :: FiledSelection(rd, sources[i], records[i])
  }

  /** One pass of the selection loop: refused exactly when the selections so far are. */
  method AddSelection(rd: Reader, versioned: bool, ghost cs: seq<Component>, ix: Index, ghost root: Ref,
                      ghost before: seq<string>, seen: set<string>, ids: set<Key>, source: string)
      returns (ok: bool, ids': set<Key>)
    requires Indexes(rd, versioned, cs, ix) && Carried(cs, root)
    requires SelectionsAccepted(rd, versioned, cs, before) && Tally(rd, versioned, cs, ix, root, before, ids)
    requires forall x :: x in seen <==> x in before
    ensures ok <==> SelectionsAccepted(rd, versioned, cs, before + [source])
    ensures ok ==> Tally(rd, versioned, cs, ix, root, before + [source], ids')
  {
    SelectionsMore(rd, versioned, cs, before, source);
    var parsed := rd.selection(source);
    if source in seen || parsed.None? {
      return false, ids;
    }
    var picked := CheckSelection(rd, versioned, cs, ix, parsed.value);
    if picked.Raised? {
      return false, ids;
    }
    TallyMore(rd, versioned, cs, ix, root, before, ids, source, picked.value);
    ok, ids' := true, ids + picked.value;
  }

  /** The selection loop. */
  method CheckSelections(rd: Reader, versioned: bool, ghost cs: seq<Component>, ix: Index, root: Ref, sources: seq<string>)
      returns (ok: bool, ids: set<Key>, records: seq<Record>)
    requires Indexes(rd, versioned, cs, ix) && Carried(cs, root)
    ensures ok <==> SelectionsAccepted(rd, versioned, cs, sources)
    ensures ok ==> Tally(rd, versioned, cs, ix, root, sources, ids) && FiledSelections(rd, sources, records)
  {
    ids, records := {KeyOf(versioned, root)}, [];
    RootTally(rd, versioned, cs, ix, root);
    var seen: set<string> := {};
    for i := 0 to |sources|
      invariant SelectionsAccepted(rd, versioned, cs, sources[..i])
      invariant Tally(rd, versioned, cs, ix, root, sources[..i], ids)
      invariant forall x :: x in seen <==> x in sources[..i]
      invariant |records| == i && forall k | 0 <= k < i :: FiledSelection(rd, sources[k], records[k])
    {
      assert sources[..i] + [sources[i]] == sources[..i + 1];
      SelectionsPrefix(rd, versioned, cs, sources, i + 1);
      ok, ids := AddSelection(rd, versioned, cs, ix, root, sources[..i], seen, ids, sources[i]);
      if !ok {
        return;
      }
      seen := seen + {sources[i]};
      records := records + [Record(SelectionAt(rd.sha(sources[i])), sources[i])];
    }
    assert sources[..|sources|] == sources;
    ok := true;
  }

  lemma RootTally(rd: Reader, versioned: bool, cs: seq<Component>, ix: Index, root: Ref)
    requires Indexes(rd, versioned, cs, ix) && Carried(cs, root)
    ensures Tally(rd, versioned, cs, ix, root, [], {KeyOf(versioned, root)})
  {
    Lookup(rd, versioned, cs, ix, root);
    forall c: Ref | Carried(cs, c)
      ensures KeyOf(versioned, c) in {KeyOf(versioned, root)} <==> c == root || Chosen(rd, [], c)
    {
      Lookup(rd, versioned, cs, ix, c);
    }
  }

  /** The final comparison of key sets: everything carried is selected. */
  lemma CoverageExact(rd: Reader, versioned: bool, e: Export, ix: Index, ids: set<Key>)
    requires Indexes(rd, versioned, e.components, ix) && e.root.Some?
    requires Tally(rd, versioned, e.components, ix, e.root.value, e.selections, ids)
    ensures ids == ix.references.Keys <==> Covered(rd, e)
  {
    if ids == ix.references.Keys {
      forall r: Ref | Carried(e.components, r)
        ensures r == e.root.value || Chosen(rd, e.selections, r)
      {
        Lookup(rd, versioned, e.components, ix, r);
      }
    }
    if Covered(rd, e) {
      forall id | id in ix.references
        ensures id in ids
      {
        assert KeyCarried(versioned, e.components, id);
        var i :| 0 <= i < |e.components| && HasKey(versioned, e.components[i], id);
        assert e.components[i].reference == Some(e.components[i].reference.value);
      }
      assert ids == ix.references.Keys;
    }
  }

  lemma NamedExact(rd: Reader, cs: seq<Component>, ix: Index, u: string)
    requires Indexes(rd, false, cs, ix)
    ensures Named(u) in ix.references <==> CarriedName(cs, u)
  {
    if Named(u) in ix.references {
      assert KeyCarried(false, cs, Named(u));
      var i :| 0 <= i < |cs| && HasKey(false, cs[i], Named(u));
      assert HasName(cs[i], u);
    }
    if CarriedName(cs, u) {
      var i :| 0 <= i < |cs| && HasName(cs[i], u);
      assert Entered(rd, false, cs[i], ix);
    }
  }

  lemma CarriedKey(rd: Reader, versioned: bool, cs: seq<Component>, ix: Index, id: Key)
    requires Indexes(rd, versioned, cs, ix) && id in ix.references
    ensures id in ix.documents && Carried(cs, ix.references[id]) && KeyOf(versioned, ix.references[id]) == id
  {
    assert KeyCarried(versioned, cs, id);
    var i :| 0 <= i < |cs| && HasKey(versioned, cs[i], id);
    assert Entered(rd, versioned, cs[i], ix);
    assert cs[i].reference == Some(ix.references[id]);
  }

  /** The unversioned dependency test over the dictionaries. */
  lemma NamesExact(rd: Reader, cs: seq<Component>, ix: Index)
    requires Indexes(rd, false, cs, ix)
    ensures forall id | id in ix.references :: id in ix.documents
    ensures (forall id | id in ix.references :: NamesKnown(ix.documents[id], ix.references)) <==>
            (forall r: Ref, u: string | Carried(cs, r) && DependsOn(rd, cs, r, u) :: CarriedName(cs, u))
  {
    forall id | id in ix.references
      ensures id in ix.documents
    {
      CarriedKey(rd, false, cs, ix, id);
    }
    if forall r: Ref, u: string | Carried(cs, r) && DependsOn(rd, cs, r, u) :: CarriedName(cs, u) {
      forall id, u | id in ix.references && u in ix.documents[id].dependencies
        ensures Named(u) in ix.references
      {
        CarriedKey(rd, false, cs, ix, id);
        LookupDependency(rd, false, cs, ix, ix.references[id], u);
        NamedExact(rd, cs, ix, u);
      }
    }
    if forall id | id in ix.references :: NamesKnown(ix.documents[id], ix.references) {
      forall r: Ref, u: string | Carried(cs, r) && DependsOn(rd, cs, r, u)
        ensures CarriedName(cs, u)
      {
        Lookup(rd, false, cs, ix, r);
        LookupDependency(rd, false, cs, ix, r, u);
        assert NamesKnown(ix.documents[KeyOf(false, r)], ix.references);
        NamedExact(rd, cs, ix, u);
      }
    }
  }

  /** The root test over the dictionaries. */
  method CheckRoot(rd: Reader, versioned: bool, e: Export, ix: Index) returns (ok: bool)
    requires Indexes(rd, versioned, e.components, ix)
    ensures ok <==> RootAccepted(rd, versioned, e)
  {
    if !PinnedRef(e.root) {
      return false;
    }
    var root := e.root.value;
    var id := KeyOf(versioned, root);
    Lookup(rd, versioned, e.components, ix, root);
    if id !in ix.references || ix.references[id] != root {
      return false;
    }
    if versioned {
      forall u: string
        ensures DependsOn(rd, e.components, root, u) <==> u in ix.documents[id].dependencies
      {
        LookupDependency(rd, versioned, e.components, ix, root, u);
      }
      ok := ix.documents[id].dependencies == [];
      assert !ok ==> ix.documents[id].dependencies[0] in ix.documents[id].dependencies;
    } else {
      NamesExact(rd, e.components, ix);
      ok := forall id | id in ix.references :: NamesKnown(ix.documents[id], ix.references);
    }
  }

  predicate NamesKnown(d: Document, references: map<Key, Ref>) {
    forall u | u in d.dependencies :: Named(u) in references
  }

  /** The records: every component and every selection once, in the order given, then the transfer. */
  predicate Filed(rd: Reader, raw: string, e: Export, records: seq<Record>) {
    var n, m := |e.components|, |e.selections|;
    && |records| == n + m + 1
    && FiledComponents(e.components, records[..n])
    && FiledSelections(rd, e.selections, records[n..n + m])
    && records[n + m] == Record(ProvenanceAt(e.generation), raw)
  }

  lemma FiledTogether(rd: Reader, raw: string, e: Export, components: seq<Record>, selections: seq<Record>)
    requires FiledComponents(e.components, components) && FiledSelections(rd, e.selections, selections)
    ensures Filed(rd, raw, e, components + selections + [Record(ProvenanceAt(e.generation), raw)])
  {
    var records := components + selections + [Record(ProvenanceAt(e.generation), raw)];
    assert records[..|components|] == components;
    assert records[|components|..|components| + |selections|] == selections;
  }

  /** `catalogue_records`: exactly the acceptable transfers, and what they are filed as. */
  method CatalogueRecords(rd: Reader, raw: string) returns (r: Result<seq<Record>>)
    ensures r.Ok? <==> |raw| <= CAPACITY && rd.transfer(raw).Some? && Accepted(rd, rd.transfer(raw).value)
    ensures r.Ok? ==> Filed(rd, raw, rd.transfer(raw).value, r.value)
  {
    if |raw| > CAPACITY || rd.transfer(raw).None? {
      return Raised;
    }
    var e := rd.transfer(raw).value;
    if !EnvelopeAccepted(rd, e) {
      return Raised;
    }
    var versioned := e.format == FORMAT2;
    var index, components := IndexComponents(rd, versioned, e.components);
    if index.Raised? {
      return Raised;
    }
    var rooted := CheckRoot(rd, versioned, e, index.value);
    if !rooted || e.selections == [] {
      return Raised;
    }
    var ok, ids, selections := CheckSelections(rd, versioned, e.components, index.value, e.root.value, e.selections);
    if !ok {
      return Raised;
    }
    CoverageExact(rd, versioned, e, index.value, ids);
    if ids != index.value.references.Keys {
      return Raised;
    }
    FiledTogether(rd, raw, e, components, selections);
    r := Ok(components + selections + [Record(ProvenanceAt(e.generation), raw)]);
  }

  /** The filed components are exactly the root and the selected revisions: nothing else is filed and
      nothing selected is missing. */
  lemma FiledExactly(rd: Reader, e: Export, r: Ref)
    requires Accepted(rd, e)
    ensures Carried(e.components, r) <==> r == e.root.value || Chosen(rd, e.selections, r)
  {
    if Chosen(rd, e.selections, r) {
      var i :| 0 <= i < |e.selections| && SourceSelects(rd, e.selections[i], r);
      assert SourceAccepted(rd, Versioned(e), e.components, e.selections[i]);
      var s := rd.selection(e.selections[i]).value;
      var k :| 0 <= k < |s.components| && s.components[k] == Some(r);
      assert Member(e.components, s.components[k]);
    }
  }

  /** Each component is filed once: no two component records share a location. */
  lemma FiledOnce(rd: Reader, raw: string, e: Export, records: seq<Record>, i: nat, j: nat)
    requires Accepted(rd, e) && Filed(rd, raw, e, records) && i < j < |e.components|
    ensures records[i].location.ComponentAt? && records[j].location.ComponentAt?
    ensures records[i].location != records[j].location
  {
    var filed := records[..|e.components|];
    assert filed[i] == records[i] && filed[j] == records[j];
    assert FiledComponent(e.components[i], filed[i]) && FiledComponent(e.components[j], filed[j]);
    assert Compatible(Versioned(e), e.components[i], e.components[j]);
  }
}
