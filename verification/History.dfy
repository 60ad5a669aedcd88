/** The version history of an asset is a faithful, reversible log of what discovery, direct curation
    and executed proposals did to it. */
module History {
  import opened Values
  import opened Columns
  import opened Assets
  import opened SearchIndex
  import opened Store
  import opened Reconcile
  import Curation
  import Proposals

  /** What the history is about: the technical fields, the columns by name and the curated fields. */
  datatype Snapshot = Snapshot(technical: Technical, columns: map<string, Column>, curated: Curated)

  function SnapshotOf(a: Asset): Snapshot { Snapshot(a.technical, ByName(a.columns), a.curated) }

  function Pick(changes: map<Field, Change>, f: Field, otherwise: Json, after: bool): Json {
    if f in changes then if after then changes[f].after else changes[f].before else otherwise
  }

  function Patched(t: Technical, changes: map<Field, Change>, after: bool): Technical {
    Technical(Pick(changes, AssetTypeField, t.assetType, after), Pick(changes, QualifiedName, t.qualifiedName, after),
              Pick(changes, Name, t.name, after), Pick(changes, DatabaseName, t.databaseName, after),
              Pick(changes, SchemaName, t.schemaName, after), Pick(changes, TechnicalDescription, t.description, after),
              Pick(changes, TechnicalMetadata, t.metadata, after), Pick(changes, RowCount, t.rowCount, after))
  }

  /** Apply one version row to a snapshot, and take it back. */
  function Redo(s: Snapshot, v: Version): Snapshot {
    match v
    case Created(fields) => s.(technical := fields)
    case Rediscovered(changes, columns) =>
      s.(technical := Patched(s.technical, changes, true), columns := Apply(columns, s.columns))
    case Curation(edits, _) => s.(curated := s.curated + Curation.Afters(edits))
    case ProposalApplied(_, after, _, _) => s.(curated := s.curated + after)
  }

  function Undo(s: Snapshot, v: Version): Snapshot {
    match v
    case Created(_) => s
    case Rediscovered(changes, columns) =>
      s.(technical := Patched(s.technical, changes, false), columns := Revert(columns, s.columns))
    case Curation(edits, _) => s.(curated := s.curated + Curation.Befores(edits))
    case ProposalApplied(before, _, _, _) => s.(curated := s.curated + before)
  }

  /** The row's "before" is the state it was applied to. */
  predicate Fits(s: Snapshot, v: Version) {
    match v
    case Created(fields) => s.technical == fields
    case Rediscovered(changes, columns) =>
      && (forall f | f in changes :: changes[f].before == s.technical.Get(f) && changes[f].after != changes[f].before)
      && Revert(columns, Apply(columns, s.columns)) == s.columns
      && !(changes == map[] && columns.Empty())
    case Curation(edits, _) =>
      edits != map[] && forall f | f in edits ::
        f in s.curated && edits[f].before == s.curated[f] && edits[f].after != edits[f].before
    case ProposalApplied(before, after, _, _) =>
      before.Keys == after.Keys && forall f | f in before :: f in s.curated && before[f] == s.curated[f]
  }

  function RedoAll(s: Snapshot, rows: seq<Version>): Snapshot {
    if rows == [] then s else Redo(RedoAll(s, rows[..|rows| - 1]), rows[|rows| - 1])
  }

  function UndoAll(s: Snapshot, rows: seq<Version>): Snapshot
    decreases |rows|
  {
    if rows == [] then s else UndoAll(Undo(s, rows[|rows| - 1]), rows[..|rows| - 1])
  }

  predicate FitsAll(s: Snapshot, rows: seq<Version>) {
    rows != [] ==> FitsAll(s, rows[..|rows| - 1]) && Fits(RedoAll(s, rows[..|rows| - 1]), rows[|rows| - 1])
  }

  function DiscoveryRows(rows: seq<Version>): nat {
    if rows == [] then 0
    else DiscoveryRows(rows[..|rows| - 1]) + if rows[|rows| - 1].FromDiscovery() then 1 else 0
  }

  // ---------------------------------------------------------------- growth

  /** b is a later state of a: its extra rows fit a one after the other and lead from a to b. */
  predicate Grows(a: Asset, b: Asset) {
    && a.history <= b.history && a.tenant == b.tenant
    && var rows := b.history[|a.history|..];
    && FitsAll(SnapshotOf(a), rows)
    && RedoAll(SnapshotOf(a), rows) == SnapshotOf(b)
    && b.version == a.version + DiscoveryRows(rows)
  }

  predicate Born(a: Asset) {
    a.history == [Created(a.technical)] && a.version == 1 && a.curated == NO_CURATION
  }

  /** The asset descends from its creation row through its history. */
  ghost predicate Descends(a: Asset) { exists birth: Asset :: Born(birth) && Grows(birth, a) }

  ghost predicate CatalogGrows(c: Catalog, d: Catalog) {
    forall k | k in d.assets :: if k in c.assets then Grows(c.assets[k], d.assets[k]) else Descends(d.assets[k])
  }

  ghost predicate NeverForgets(c: Catalog, d: Catalog) { c.assets.Keys <= d.assets.Keys && CatalogGrows(c, d) }

  /** Each field of a patch and its undoing. */
  lemma PatchedBack(t: Technical, changes: map<Field, Change>)
    requires forall f | f in changes :: changes[f].before == t.Get(f)
    ensures Patched(Patched(t, changes, true), changes, false) == t
  {
    assert AssetTypeField in changes ==> changes[AssetTypeField].before == t.assetType;
    assert QualifiedName in changes ==> changes[QualifiedName].before == t.qualifiedName;
    assert Name in changes ==> changes[Name].before == t.name;
    assert DatabaseName in changes ==> changes[DatabaseName].before == t.databaseName;
    assert SchemaName in changes ==> changes[SchemaName].before == t.schemaName;
    assert TechnicalDescription in changes ==> changes[TechnicalDescription].before == t.description;
    assert TechnicalMetadata in changes ==> changes[TechnicalMetadata].before == t.metadata;
    assert RowCount in changes ==> changes[RowCount].before == t.rowCount;
  }

  lemma CuratedBack(c: Curated, before: Curated, after: Curated)
    requires before.Keys == after.Keys && forall f | f in before :: f in c && before[f] == c[f]
    ensures c + after + before == c
  {
  }

  lemma UndoRedo(s: Snapshot, v: Version)
    requires Fits(s, v)
    ensures Undo(Redo(s, v), v) == s
  {
    match v
    case Rediscovered(changes, columns) => PatchedBack(s.technical, changes); hide Patched, Apply, Revert;
    case Curation(edits, _) => CuratedBack(s.curated, Curation.Befores(edits), Curation.Afters(edits));
    case ProposalApplied(before, after, _, _) => CuratedBack(s.curated, before, after);
    case Created(_) =>
  }

  /** The log is reversible: undoing the rows gives back the state they were applied to. */
  lemma {:induction false} UndoRedoAll(s: Snapshot, rows: seq<Version>)
    requires FitsAll(s, rows)
    ensures UndoAll(RedoAll(s, rows), rows) == s
  {
    if rows != [] {
      var p := rows[..|rows| - 1];
      UndoRedo(RedoAll(s, p), rows[|rows| - 1]);
      UndoRedoAll(s, p);
    }
  }

  lemma {:induction false} Concatenated(s: Snapshot, p: seq<Version>, q: seq<Version>)
    ensures RedoAll(s, p + q) == RedoAll(RedoAll(s, p), q)
    ensures FitsAll(s, p + q) <==> FitsAll(s, p) && FitsAll(RedoAll(s, p), q)
    ensures DiscoveryRows(p + q) == DiscoveryRows(p) + DiscoveryRows(q)
  {
    if q == [] {
      assert p + q == p;
    } else {
      assert (p + q)[..|p + q| - 1] == p + q[..|q| - 1];
      Concatenated(s, p, q[..|q| - 1]);
    }
  }

  lemma GrowsIsReflexive(a: Asset)
    ensures Grows(a, a)
  {
  }

  lemma GrowsIsTransitive(a: Asset, b: Asset, c: Asset)
    requires Grows(a, b) && Grows(b, c)
    ensures Grows(a, c)
  {
    var p, q := b.history[|a.history|..], c.history[|b.history|..];
    assert c.history[|a.history|..] == p + q;
    Concatenated(SnapshotOf(a), p, q);
  }

  lemma GrowsByOne(a: Asset, b: Asset, v: Version)
    requires b.history == a.history + [v] && b.tenant == a.tenant
    requires Fits(SnapshotOf(a), v) && Redo(SnapshotOf(a), v) == SnapshotOf(b)
    requires b.version == a.version + if v.FromDiscovery() then 1 else 0
    ensures Grows(a, b)
  {
  }

  lemma CatalogGrowthComposes(c: Catalog, d: Catalog, e: Catalog)
    requires NeverForgets(c, d) && NeverForgets(d, e)
    ensures NeverForgets(c, e)
  {
    forall k | k in e.assets
      ensures if k in c.assets then Grows(c.assets[k], e.assets[k]) else Descends(e.assets[k])
    {
      if k in c.assets {
        GrowsIsTransitive(c.assets[k], d.assets[k], e.assets[k]);
      } else if k in d.assets {
        var birth: Asset :| Born(birth) && Grows(birth, d.assets[k]);
        GrowsIsTransitive(birth, d.assets[k], e.assets[k]);
      }
    }
  }

  lemma OneAssetGrows(c: Catalog, d: Catalog, key: Key, a: Asset)
    requires d.assets == c.assets[key := a]
    requires if key in c.assets then Grows(c.assets[key], a) else Born(a)
    ensures NeverForgets(c, d)
  {
  }

  // ---------------------------------------------------------------- the operations grow the log

  lemma PatchedIsTarget(a: Technical, b: Technical)
    ensures Patched(a, FieldChanges(a, b), true) == b
  {
  }

  lemma RediscoverGrows(a: Asset, d: Discovered, now: int)
    requires UniqueNames(a.columns)
    ensures Grows(a, Rediscover(a, d, now))
  {
    var b := Rediscover(a, d, now);
    DiffIsExact(a.columns, d.columns);
    MergeIsDiscovered(a.columns, d.columns);
    PatchedIsTarget(a.technical, Fields(d));
    NoFieldChanges(a.technical, Fields(d));
    if Differs(a, d) {
      GrowsByOne(a, b, b.history[|a.history|]);
    } else {
      assert SnapshotOf(b) == SnapshotOf(a);
      assert b.history[|a.history|..] == [];
    }
  }

  lemma {:induction false} AbsorbAllGrows(
    s: Synced, source: string, tenant: string, known: set<Key>, ds: seq<Discovered>, now: int, r: Synced)
    requires WellFormed(s.catalog) && AbsorbAll(s, source, tenant, known, ds, now) == Ok(r)
    ensures NeverForgets(s.catalog, r.catalog)
  {
    hide DocumentOf, Rediscover, Differs, Grows, RowsTake, Indexable, Framed;
    if ds == [] {
      forall k | k in s.catalog.assets ensures Grows(s.catalog.assets[k], s.catalog.assets[k]) {
        GrowsIsReflexive(s.catalog.assets[k]);
      }
    } else {
      var p, d := ds[..|ds| - 1], ds[|ds| - 1];
      var m := AbsorbAll(s, source, tenant, known, p, now).value;
      AbsorbAllGrows(s, source, tenant, known, p, now, m);
      AbsorbAllIsFramed(s, source, tenant, known, p, now, m);
      var key := KeyOf(source, d);
      if key in m.catalog.assets { RediscoverGrows(m.catalog.assets[key], d, now); }
      OneAssetGrows(m.catalog, r.catalog, key, r.catalog.assets[key]);
      CatalogGrowthComposes(s.catalog, m.catalog, r.catalog);
    }
  }

  /** Every curated field is present, as the columns of the table are. */
  predicate FullyCurated(a: Asset) { forall f: CuratedField :: f in a.curated }

  lemma EditedGrows(a: Asset, updates: Curated, actor: string, now: int)
    requires FullyCurated(a) && Curation.Edits(a, updates) != map[]
    ensures Grows(a, Curation.Edited(a, updates, actor, now))
  {
  }

  lemma CurateGrows(a: Asset, changes: Curated, id: nat, actor: string, now: int)
    requires FullyCurated(a)
    ensures Grows(a, Proposals.Curate(a, changes, id, actor, now))
  {
  }

  // ---------------------------------------------------------------- the promise

  /** An asset that descends from its creation: its version counts its discovery rows, and replaying
      the rows after the first from the creation snapshot gives the asset as it is, and back. */
  lemma HistoryIsFaithful(a: Asset)
    requires Descends(a)
    ensures a.history != [] && a.history[0].Created? && a.version == DiscoveryRows(a.history)
    ensures exists columns: map<string, Column> ::
      var birth := Snapshot(a.history[0].fields, columns, NO_CURATION);
      && FitsAll(birth, a.history[1..])
      && RedoAll(birth, a.history[1..]) == SnapshotOf(a)
      && UndoAll(SnapshotOf(a), a.history[1..]) == birth
  {
    var birth: Asset :| Born(birth) && Grows(birth, a);
    var rows := a.history[1..];
    assert a.history == [birth.history[0]] + rows;
    Concatenated(SnapshotOf(birth), [birth.history[0]], rows);
    assert [birth.history[0]][..0] == [];
    assert DiscoveryRows([birth.history[0]]) == 1;
    UndoRedoAll(SnapshotOf(birth), rows);
    assert SnapshotOf(birth) == Snapshot(a.history[0].fields, ByName(birth.columns), NO_CURATION);
  }
}
