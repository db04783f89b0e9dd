/** Foreign metadata: a database, such as no step of the compiler itself leaves, on which a full incremental
    run differs from a build from scratch. */
module StaleEvidence {
  import opened Wrappers
  import opened EvidenceTables
  import opened EvidencePipeline

  /** One document of one line, routed to the ACTION lane. */
  function OneLineConfig(): Config {
    Config(_ => [Piece(1, 1, 1, "x")], (_, _) => 4, (_, _) => [Unit(1, 1, "x", "")])
  }

  const KEY := Key("repo", "path")
  const CARD := Card(KEY, Sha256("x"), Unit(1, 1, "x", ""), Meta("https://example.org", "1", None))
  const ROW := Group(ACTION, KEY, 1, Sha256("x"), [CARD])

  /** Its row was extracted while the metadata named a URL; now the metadata has none. */
  function Orphaned(): Tables {
    Tables(map[0 := Document(KEY, "x", Sha256("x"))],
           map[0 := Atom(0, 0, Piece(1, 1, 1, "x"), Sha256("x"))],
           map[0 := Route(4, true)],
           [ROW],
           map[KEY := Meta("", "", None)],
           map[])
  }

  lemma OrphanedWanted()
    ensures Wanted(OneLineConfig(), KEY, "x", ACTION)
  {
    var cfg := OneLineConfig();
    assert cfg.atomize("x") == [Piece(1, 1, 1, "x")];
    assert RouteOf(cfg, KEY.path, "x") == Route(4, true);
    assert 0 in LaneIndices(cfg, KEY, "x", ACTION);
    assert (1, 1) in LaneSpans(cfg, KEY, "x", ACTION);
    var units := cfg.units("x", KEY.path);
    assert units == [Unit(1, 1, "x", "")];
    assert Overlaps(units[0], LaneSpans(cfg, KEY, "x", ACTION));
  }

  lemma OrphanedLawful()
    ensures Lawful(OneLineConfig(), Orphaned()) && AtomsBuilt(OneLineConfig(), Orphaned())
  {
    var cfg, t := OneLineConfig(), Orphaned();
    OrphanedWanted();
    assert t.atoms[0].doc == 0 && 0 in AtomIds(t, 0);
    assert HasAtom(t, 0, 0);
    assert cfg.atomize("x") == [Piece(1, 1, 1, "x")];
    assert Complete(cfg, t, 0);
    assert GroupOk(cfg, t, ROW);
  }

  /** No lane replaces or deletes the row, although a build from scratch would not have it. */
  lemma StaleRowSurvives()
    ensures Lawful(OneLineConfig(), Orphaned()) && AtomsBuilt(OneLineConfig(), Orphaned())
    ensures forall lane: Lane :: LaneDone(OneLineConfig(), Orphaned(), Orphaned().groups, Orphaned().documents.Keys, lane)
    ensures ViewOf(Orphaned()) != FreshView(OneLineConfig(), Orphaned())
  {
    var cfg, t := OneLineConfig(), Orphaned();
    OrphanedLawful();
    forall d, lane: Lane | d in t.documents
      ensures !Produces(cfg, t, d, lane)
    {
      assert d == 0 && !HasUrl(t, KEY);
    }
    assert ROW in ViewOf(t).groups;
    assert ROW !in FreshView(cfg, t).groups;
  }
}
