/** The in-place form of reconciliation: the loops of `_sync_columns` and `synchronize_discovery`
    over a loaded asset record and an open session. */
module Ingestion {
  import opened Values
  import opened Columns
  import opened Assets
  import opened SearchIndex
  import opened Store
  import opened Reconcile

  /** A loaded asset object: the fields that discovery assigns, over the row it was loaded from. */
  class AssetRecord {
    const loaded: Asset
    var technical: Technical
    var columns: seq<Column>
    var version: nat
    var discoveredAt: int
    var freshnessAt: int
    var history: seq<Version>

    constructor (a: Asset)
      ensures Row() == a && columns == a.columns && technical == a.technical && version == a.version
      ensures history == a.history && loaded == a
    {
      loaded, technical, columns, version := a, a.technical, a.columns, a.version;
      discoveredAt, freshnessAt, history := a.discoveredAt, a.freshnessAt, a.history;
    }

    function Row(): Asset
      reads this
    {
      loaded.(technical := technical, columns := columns, version := version,
              discoveredAt := discoveredAt, freshnessAt := freshnessAt, history := history)
    }

    method SyncFields(fields: Technical) returns (changes: map<Field, Change>)
      modifies `technical
      ensures technical == fields && changes == FieldChanges(old(technical), fields)
    {
      var before := technical;
      changes := map[];
      for i := 0 to |FIELDS|
        invariant technical == Overwritten(before, fields, i)
        invariant changes == map f | f in FIELDS[..i] && before.Get(f) != fields.Get(f) ::
          Change(before.Get(f), fields.Get(f))
      {
        var field := FIELDS[i];
        OverwriteStep(before, fields, i);
        if technical.Get(field) != fields.Get(field) {
          changes := changes[field := Change(technical.Get(field), fields.Get(field))];
          technical := technical.Set(field, fields.Get(field));
        }
      }
      OverwrittenAll(before, fields);
    }

    method SyncColumns(discovered: seq<Column>) returns (changed: bool, changes: Changes)
      requires UniqueNames(columns)
      modifies `columns
      ensures columns == Merge(old(columns), discovered)
      ensures changes == Diff(old(columns), discovered) && changed == !changes.Empty()
    {
      var existing, items := columns, DictItems(discovered);
      DictItemsAreByName(discovered);
      var created, updated := UpsertColumns(items);
      ghost var upserted := Updated(existing, ByName(discovered));
      assert columns == upserted + created;
      assert columns[..|existing|] == upserted;
      UpdatedNames(existing, discovered);
      var removed := RemoveColumns(existing, Names(discovered));
      changes := Changes(created, updated, removed);
      changed := !changes.Empty();
    }

    /** The first loop: update in place or append, in dictionary order. */
    method UpsertColumns(items: seq<Column>) returns (created: seq<Column>, updated: seq<Update>)
      requires UniqueNames(columns) && UniqueNames(items)
      modifies `columns
      ensures columns == Upserted(old(columns), items)
      ensures created == Without(items, Names(old(columns))) && updated == Updates(items, ByName(old(columns)))
    {
      var existing := columns;
      created, updated := [], [];
      for i := 0 to |items|
        invariant columns == Upserted(existing, items[..i])
        invariant created == Without(items[..i], Names(existing)) && updated == Updates(items[..i], ByName(existing))
      {
        var c := items[i];
        var at := IndexOf(existing, c.name);
        Extend(existing, items, i);
        UpsertedStep(existing, items, i);
        if at == |existing| {
          columns := columns + [c];
          created := created + [c];
        } else if columns[at] != c {
          updated := updated + [Update(columns[at], c)];
          columns := columns[at := c];
        }
      }
      assert items[..|items|] == items;
    }

    /** The second loop: remove what was not discovered; the i-th loaded column sits at i less those removed. */
    method RemoveColumns(existing: seq<Column>, names: set<string>) returns (removed: seq<Column>)
      requires |existing| <= |columns| && SameNames(existing, columns[..|existing|])
      modifies `columns
      ensures columns == Within(old(columns)[..|existing|], names) + old(columns)[|existing|..]
      ensures removed == Without(existing, names)
    {
      ghost var before := columns;
      removed := [];
      PruneEnds(before, existing, names);
      hide Pruned, KeptCount, Within, Without, SameNames;
      for i := 0 to |existing|
        invariant columns == Pruned(before, names, i) && removed == Without(existing[..i], names)
        invariant |removed| == i - KeptCount(before, names, i)
      {
        PruneStep(before, existing, names, i);
        if existing[i].name !in names {
          var at := i - |removed|;
          removed := removed + [existing[i]];
          columns := columns[..at] + columns[at + 1..];
        }
      }
    }

    /** The update branch of the pass for one loaded asset. */
    method Absorb(d: Discovered, now: int) returns (changed: bool)
      requires UniqueNames(columns)
      modifies this
      ensures Row() == Rediscover(old(Row()), d, now) && changed == Differs(old(Row()), d)
    {
      var technicalChanges := SyncFields(Fields(d));
      var columnChanged, columnChanges := SyncColumns(d.columns);
      discoveredAt, freshnessAt := now, Freshness(d, now);
      changed := technicalChanges != map[] || columnChanged;
      if changed {
        version := version + 1;
        history := history + [Rediscovered(technicalChanges, columnChanges)];
      }
    }
  }

  /** `before` with its first n fields taken from `fields`. */
  function Overwritten(before: Technical, fields: Technical, n: nat): Technical
    requires n <= |FIELDS|
  {
    if n == 0 then before else Overwritten(before, fields, n - 1).Set(FIELDS[n - 1], fields.Get(FIELDS[n - 1]))
  }

  lemma OverwriteStep(before: Technical, fields: Technical, i: nat)
    requires i < |FIELDS|
    ensures Overwritten(before, fields, i).Get(FIELDS[i]) == before.Get(FIELDS[i])
    ensures Overwritten(before, fields, i).Get(FIELDS[i]) == fields.Get(FIELDS[i]) ==>
            Overwritten(before, fields, i + 1) == Overwritten(before, fields, i)
    ensures FIELDS[..i + 1] == FIELDS[..i] + [FIELDS[i]]
  {
    OverwrittenGet(before, fields, i, FIELDS[i]);
    var o, f := Overwritten(before, fields, i), FIELDS[i];
    assert o.Set(f, o.Get(f)) == o;
  }

  lemma {:induction false} OverwrittenGet(before: Technical, fields: Technical, n: nat, f: Field)
    requires n <= |FIELDS|
    ensures Overwritten(before, fields, n).Get(f) == if f in FIELDS[..n] then fields.Get(f) else before.Get(f)
  {
    if n > 0 {
      assert FIELDS[..n] == FIELDS[..n - 1] + [FIELDS[n - 1]];
      OverwrittenGet(before, fields, n - 1, f);
    }
  }

  lemma OverwrittenAll(before: Technical, fields: Technical)
    ensures Overwritten(before, fields, |FIELDS|) == fields
    ensures forall f: Field :: f in FIELDS[..|FIELDS|]
  {
    var all := Overwritten(before, fields, |FIELDS|);
    forall f: Field ensures f in FIELDS[..|FIELDS|] && all.Get(f) == fields.Get(f) {
      FieldIsListed(f);
      OverwrittenGet(before, fields, |FIELDS|, f);
    }
    hide Overwritten;
    NoFieldChanges(all, fields);
    assert FieldChanges(all, fields) == map[];
  }

  lemma FieldIsListed(f: Field)
    ensures f in FIELDS[..|FIELDS|]
  {
    var j := match f
      case AssetTypeField => 0 case QualifiedName => 1 case Name => 2 case DatabaseName => 3
      case SchemaName => 4 case TechnicalDescription => 5 case TechnicalMetadata => 6 case RowCount => 7;
    assert FIELDS[j] == f;
  }

  /** One turn of the first loop, on the specification functions. */
  lemma Extend(existing: seq<Column>, items: seq<Column>, i: nat)
    requires UniqueNames(existing) && UniqueNames(items) && i < |items|
    ensures ByName(items[..i + 1]) == ByName(items[..i])[items[i].name := items[i]]
    ensures items[i].name !in ByName(items[..i])
    ensures Without(items[..i + 1], Names(existing)) ==
            Without(items[..i], Names(existing)) + (if items[i].name in Names(existing) then [] else [items[i]])
    ensures Updates(items[..i + 1], ByName(existing)) == Updates(items[..i], ByName(existing)) +
            (if items[i].name in Names(existing) && ByName(existing)[items[i].name] != items[i]
             then [Update(ByName(existing)[items[i].name], items[i])] else [])
  {
    var q := items[..i + 1];
    assert q[..i] == items[..i] && q[i] == items[i];
    ByNameKeys(items[..i]);
  }

  lemma Locate(existing: seq<Column>, name: string)
    requires UniqueNames(existing)
    ensures var at := IndexOf(existing, name);
      if at < |existing| then name in ByName(existing) && ByName(existing)[name] == existing[at]
      else name !in ByName(existing)
  {
    ByNameKeys(existing);
    ByNameOfUnique(existing);
    var at := IndexOf(existing, name);
    if at < |existing| { assert existing[at] in existing; }
  }

  function Upserted(existing: seq<Column>, items: seq<Column>): seq<Column> {
    Updated(existing, ByName(items)) + Without(items, Names(existing))
  }

  lemma UpsertedStep(existing: seq<Column>, items: seq<Column>, i: nat)
    requires UniqueNames(existing) && UniqueNames(items) && i < |items|
    ensures var at, c, before := IndexOf(existing, items[i].name), items[i], Upserted(existing, items[..i]);
      if at < |existing|
      then c.name in ByName(existing) && before[at] == ByName(existing)[c.name]
           && Upserted(existing, items[..i + 1]) == before[at := c]
      else c.name !in ByName(existing) && Upserted(existing, items[..i + 1]) == before + [c]
  {
    var c, p := items[i], ByName(items[..i]);
    Extend(existing, items, i);
    Locate(existing, c.name);
    UpdatedStep(existing, p, c);
    Replace(Updated(existing, p), Without(items[..i], Names(existing)), IndexOf(existing, c.name), c);
  }

  lemma Replace(front: seq<Column>, back: seq<Column>, at: nat, c: Column)
    ensures at < |front| ==> front[at := c] + back == (front + back)[at := c]
    ensures front + (back + [c]) == front + back + [c]
  {
  }

  lemma UpdatedStep(existing: seq<Column>, p: map<string, Column>, c: Column)
    requires UniqueNames(existing) && c.name !in p
    ensures var at := IndexOf(existing, c.name);
      if at < |existing|
      then Updated(existing, p)[at] == existing[at]
        && Updated(existing, p[c.name := c]) == Updated(existing, p)[at := c]
      else Updated(existing, p[c.name := c]) == Updated(existing, p)
  {
    var at, u, v := IndexOf(existing, c.name), Updated(existing, p), Updated(existing, p[c.name := c]);
    hide IndexOf;
    if at < |existing| {
      forall j | 0 <= j < |existing| ensures v[j] == u[at := c][j] {
        if j != at { assert existing[j].name != c.name; }
      }
    } else {
      assert forall j | 0 <= j < |existing| :: v[j] == u[j];
    }
  }

  lemma SelectStep(s: seq<Column>, names: set<string>, i: nat)
    requires i < |s|
    ensures Within(s[..i + 1], names) == Within(s[..i], names) + (if s[i].name in names then [s[i]] else [])
    ensures Without(s[..i + 1], names) == Without(s[..i], names) + (if s[i].name in names then [] else [s[i]])
  {
    assert s[..i + 1][..i] == s[..i] && s[..i + 1][i] == s[i];
  }

  predicate SameNames(a: seq<Column>, b: seq<Column>) {
    |a| == |b| && forall j | 0 <= j < |a| :: a[j].name == b[j].name
  }

  lemma UpdatedNames(existing: seq<Column>, discovered: seq<Column>)
    ensures SameNames(existing, Updated(existing, ByName(discovered)))
  {
  }

  function Pruned(s: seq<Column>, names: set<string>, i: nat): seq<Column>
    requires i <= |s|
  {
    Within(s[..i], names) + s[i..]
  }

  function KeptCount(s: seq<Column>, names: set<string>, i: nat): nat
    requires i <= |s|
  {
    |Within(s[..i], names)|
  }

  lemma PruneEnds(s: seq<Column>, existing: seq<Column>, names: set<string>)
    requires |existing| <= |s|
    ensures Pruned(s, names, 0) == s && KeptCount(s, names, 0) == 0 && Without(existing[..0], names) == []
    ensures Pruned(s, names, |existing|) == Within(s[..|existing|], names) + s[|existing|..]
    ensures existing[..|existing|] == existing
  {
  }

  lemma PruneStep(s: seq<Column>, existing: seq<Column>, names: set<string>, i: nat)
    requires i < |existing| <= |s| && SameNames(existing, s[..|existing|])
    ensures var at, before := KeptCount(s, names, i), Pruned(s, names, i);
      && at < |before|
      && (if existing[i].name in names
          then Pruned(s, names, i + 1) == before && KeptCount(s, names, i + 1) == at + 1
               && Without(existing[..i + 1], names) == Without(existing[..i], names)
          else Pruned(s, names, i + 1) == before[..at] + before[at + 1..] && KeptCount(s, names, i + 1) == at
               && Without(existing[..i + 1], names) == Without(existing[..i], names) + [existing[i]])
  {
    hide Within, Without;
    SelectStep(s, names, i);
    SelectStep(existing, names, i);
    assert s[..|existing|][i] == s[i];
    var kept := Within(s[..i], names);
    assert s[i..] == [s[i]] + s[i + 1..];
    if s[i].name in names {
      assert kept + [s[i]] + s[i + 1..] == kept + s[i..];
    } else {
      assert (kept + s[i..])[..|kept|] == kept && (kept + s[i..])[|kept| + 1..] == s[i + 1..];
    }
  }

  lemma {:induction false} AbsorbAllStopsAtError(
    s: Synced, source: string, tenant: string, known: set<Key>, ds: seq<Discovered>, now: int, i: nat)
    requires i <= |ds| && AbsorbAll(s, source, tenant, known, ds[..i], now).Err?
    ensures AbsorbAll(s, source, tenant, known, ds, now) == AbsorbAll(s, source, tenant, known, ds[..i], now)
    decreases |ds|
  {
    if i == |ds| {
      assert ds[..i] == ds;
    } else {
      assert ds[..|ds| - 1][..i] == ds[..i];
      AbsorbAllStopsAtError(s, source, tenant, known, ds[..|ds| - 1], now, i);
    }
  }

  /** One discovered asset, in the open session. */
  method AbsorbOne(db: Session, source: string, tenant: string, known: set<Key>, d: Discovered, now: int, stats: Stats,
      unflushed: set<Key>)
    returns (r: Result<(Stats, set<Key>), StoreError>)
    requires WellFormed(db.work.catalog)
    modifies db`work
    ensures var spec := Absorb(Synced(old(db.work.catalog), stats, unflushed), source, tenant, known, d, now);
      if spec.Ok?
      then r == Ok((spec.value.stats, spec.value.unflushed)) && db.work == old(db.work).(catalog := spec.value.catalog)
      else r == Err(spec.error) && db.work == old(db.work)
  {
    hide DocumentOf, Rediscover, Differs, NewAsset;
    var key, c := KeyOf(source, d), db.work.catalog;
    var counted, asset := stats.(columns := stats.columns + |d.columns|), NewAsset(tenant, d, now);
    var waiting := unflushed;
    if key in known && key in c.assets {
      if key in unflushed { return Err(UniqueViolation); }
      if !RowsTake(d) || !Indexable(c.assets[key].curated) { return Err(DataError); }
      if key !in c.documents { waiting := unflushed + {key}; }
      var record := new AssetRecord(c.assets[key]);
      var changed := record.Absorb(d, now);
      counted := if changed then counted.(updated := counted.updated + 1) else counted.(same := counted.same + 1);
      asset := record.Row();
    } else if key in c.assets || !UniqueNames(d.columns) {
      return Err(UniqueViolation);
    } else if !RowsTake(d) {
      return Err(DataError);
    } else {
      counted := counted.(created := counted.created + 1);
      waiting := {key};
    }
    db.work := db.work.(catalog := Catalog(c.assets[key := asset], c.documents[key := DocumentOf(asset)]));
    r := Ok((counted, waiting));
  }

  /** Upsert technical metadata into the session; an integrity error leaves it to be rolled back. */
  method SynchronizeDiscovery(db: Session, source: string, tenant: string, ds: seq<Discovered>, now: int)
    returns (r: Result<Stats, StoreError>)
    requires WellFormed(db.work.catalog)
    modifies db`work
    ensures var spec := Synchronize(old(db.work.catalog), source, tenant, ds, now);
      if spec.Ok? then r == Ok(spec.value.stats) && db.work == old(db.work).(catalog := spec.value.catalog)
      else r == Err(spec.error)
  {
    var known, stats := KnownKeys(db.work.catalog, source, tenant), Stats(|ds|, 0, 0, 0, 0);
    var unflushed: set<Key> := {};
    ghost var start := Start(db.work.catalog, |ds|);
    for i := 0 to |ds|
      invariant AbsorbAll(start, source, tenant, known, ds[..i], now) == Ok(Synced(db.work.catalog, stats, unflushed))
      invariant WellFormed(db.work.catalog) && db.work == old(db.work).(catalog := db.work.catalog)
    {
      assert ds[..i + 1][..i] == ds[..i];
      ghost var before := Synced(db.work.catalog, stats, unflushed);
      var one := AbsorbOne(db, source, tenant, known, ds[i], now, stats, unflushed);
      if one.Err? {
        AbsorbAllStopsAtError(start, source, tenant, known, ds, now, i + 1);
        return Err(one.error);
      }
      stats, unflushed := one.value.0, one.value.1;
      AbsorbIsLocal(before, source, tenant, known, ds[i], now, Synced(db.work.catalog, stats, unflushed));
    }
    assert ds[..|ds|] == ds;
    r := Ok(stats);
  }
}
