/** Metadata reconciliation: `synchronize_discovery` of apps/catalog-api/app/services/ingestion_service.py. */
module Reconcile {
  import opened Values
  import opened Columns
  import opened Assets
  import opened SearchIndex
  import opened Store

  datatype Stats = Stats(discovered: nat, created: nat, updated: nat, same: nat, columns: nat)

  datatype StoreError = UniqueViolation | DataError

  /** A pass under way. The session does not flush by itself: a document that was added for a known asset
      is not found again until the next new asset flushes it. */
  datatype Synced = Synced(catalog: Catalog, stats: Stats, unflushed: set<Key>)

  // ---------------------------------------------------------------- specification

  function FieldChanges(a: Technical, b: Technical): map<Field, Change> {
    map f: Field | a.Get(f) != b.Get(f) :: Change(a.Get(f), b.Get(f))
  }

  function Freshness(d: Discovered, now: int): int { if d.freshnessAt.Some? then d.freshnessAt.value else now }

  function NewAsset(tenant: string, d: Discovered, now: int): Asset {
    Asset(tenant, Fields(d), d.columns, 1, now, Freshness(d, now), NO_CURATION, None, None, [Created(Fields(d))])
  }

  predicate Differs(a: Asset, d: Discovered) {
    FieldChanges(a.technical, Fields(d)) != map[] || !Diff(a.columns, d.columns).Empty()
  }

  function Rediscover(a: Asset, d: Discovered, now: int): Asset {
    var seen := a.(technical := Fields(d), columns := Merge(a.columns, d.columns),
                   discoveredAt := now, freshnessAt := Freshness(d, now));
    if Differs(a, d) then
      seen.(version := a.version + 1,
            history := a.history + [Rediscovered(FieldChanges(a.technical, Fields(d)), Diff(a.columns, d.columns))])
    else seen
  }

  /** One discovered asset; `known` are the keys read before the pass. */
  function Absorb(s: Synced, source: string, tenant: string, known: set<Key>, d: Discovered, now: int)
    : Result<Synced, StoreError>
  {
    var key, c := KeyOf(source, d), s.catalog;
    var counted := s.stats.(columns := s.stats.columns + |d.columns|);
    if key in known && key in c.assets then
      if key in s.unflushed then Err(UniqueViolation)
      else if !RowsTake(d) || !Indexable(c.assets[key].curated) then Err(DataError)
      else
        var a := Rediscover(c.assets[key], d, now);
        Ok(Synced(Catalog(c.assets[key := a], c.documents[key := DocumentOf(a)]),
                  if Differs(c.assets[key], d) then counted.(updated := counted.updated + 1)
                  else counted.(same := counted.same + 1),
                  if key in c.documents then s.unflushed else s.unflushed + {key}))
    else if key in c.assets || !UniqueNames(d.columns) then Err(UniqueViolation)
    else if !RowsTake(d) then Err(DataError)
    else
      var a := NewAsset(tenant, d, now);
      Ok(Synced(Catalog(c.assets[key := a], c.documents[key := DocumentOf(a)]),
                counted.(created := counted.created + 1), {key}))
  }

  function AbsorbAll(s: Synced, source: string, tenant: string, known: set<Key>, ds: seq<Discovered>,
      now: int)
    : Result<Synced, StoreError>
  {
    if ds == [] then Ok(s)
    else
      var before := AbsorbAll(s, source, tenant, known, ds[..|ds| - 1], now);
      if before.Err? then before else Absorb(before.value, source, tenant, known, ds[|ds| - 1], now)
  }

  function KnownKeys(c: Catalog, source: string, tenant: string): set<Key> {
    set k | k in c.assets && k.source == source && c.assets[k].tenant == tenant
  }

  function Start(c: Catalog, items: nat): Synced { Synced(c, Stats(items, 0, 0, 0, 0), {}) }

  function Synchronize(c: Catalog, source: string, tenant: string, ds: seq<Discovered>, now: int)
    : Result<Synced, StoreError>
  {
    AbsorbAll(Start(c, |ds|), source, tenant, KnownKeys(c, source, tenant), ds, now)
  }

  // ---------------------------------------------------------------- what one pass establishes

  predicate WellFormed(c: Catalog) {
    forall k | k in c.assets :: UniqueNames(c.assets[k].columns)
  }

  predicate Current(a: Asset, d: Discovered) {
    a.technical == Fields(d) && ByName(a.columns) == ByName(d.columns)
  }

  /** The steward-owned part of an asset. */
  predicate SameStewardship(a: Asset, b: Asset) {
    a.tenant == b.tenant && a.curated == b.curated && a.curatedAt == b.curatedAt && a.explainableAt == b.explainableAt
  }

  /** Everything but the two discovery timestamps. */
  function Undated(a: Asset): Asset { a.(discoveredAt := 0, freshnessAt := 0) }

  /** ds[i] is the last item of its key. */
  predicate Last(source: string, ds: seq<Discovered>, i: nat)
    requires i < |ds|
  {
    forall j | i < j < |ds| :: KeyOf(source, ds[j]) != KeyOf(source, ds[i])
  }

  predicate Distinct(source: string, ds: seq<Discovered>) {
    forall i | 0 <= i < |ds| :: Last(source, ds, i)
  }

  function ColumnTotal(ds: seq<Discovered>): nat {
    if ds == [] then 0 else ColumnTotal(ds[..|ds| - 1]) + |ds[|ds| - 1].columns|
  }

  function KeysOf(source: string, ds: seq<Discovered>): set<Key> {
    set i | 0 <= i < |ds| :: KeyOf(source, ds[i])
  }

  lemma NoFieldChanges(a: Technical, b: Technical)
    ensures FieldChanges(a, b) == map[] <==> a == b
  {
    if FieldChanges(a, b) == map[] {
      forall f: Field ensures a.Get(f) == b.Get(f) { assert f !in FieldChanges(a, b); }
      assert a.Get(AssetTypeField) == b.Get(AssetTypeField) && a.Get(QualifiedName) == b.Get(QualifiedName);
      assert a.Get(Name) == b.Get(Name) && a.Get(DatabaseName) == b.Get(DatabaseName)
        && a.Get(SchemaName) == b.Get(SchemaName);
      assert a.Get(TechnicalDescription) == b.Get(TechnicalDescription);
      assert a.Get(TechnicalMetadata) == b.Get(TechnicalMetadata) && a.Get(RowCount) == b.Get(RowCount);
    }
  }

  /** Rediscovery makes the asset current; it is silent exactly when the asset already was. */
  lemma RediscoverIsExact(a: Asset, d: Discovered, now: int)
    requires UniqueNames(a.columns)
    ensures UniqueNames(Rediscover(a, d, now).columns)
    ensures Current(Rediscover(a, d, now), d) && SameStewardship(a, Rediscover(a, d, now))
    ensures Differs(a, d) <==> !Current(a, d)
    ensures Current(a, d) ==> Undated(Rediscover(a, d, now)) == Undated(a)
  {
    MergeIsDiscovered(a.columns, d.columns);
    DiffIsExact(a.columns, d.columns);
    NoFieldChanges(a.technical, Fields(d));
    if Current(a, d) { MergeOfSame(a.columns, d.columns); }
  }

  /** What one item does: its own asset becomes current and is reindexed, nothing else moves. */
  lemma AbsorbIsLocal(s: Synced, source: string, tenant: string, known: set<Key>, d: Discovered, now: int, r: Synced)
    requires WellFormed(s.catalog) && Absorb(s, source, tenant, known, d, now) == Ok(r)
    ensures WellFormed(r.catalog)
    ensures var key := KeyOf(source, d);
      && r.catalog.assets == s.catalog.assets[key := r.catalog.assets[key]]
      && r.catalog.documents == s.catalog.documents[key := DocumentOf(r.catalog.assets[key])]
      && Current(r.catalog.assets[key], d)
      && (if key in s.catalog.assets then SameStewardship(s.catalog.assets[key], r.catalog.assets[key])
          else r.catalog.assets[key] == NewAsset(tenant, d, now))
  {
    hide DocumentOf, Merge, Diff;
    var key := KeyOf(source, d);
    if key in s.catalog.assets { RediscoverIsExact(s.catalog.assets[key], d, now); }
  }

  lemma KeysOfAppend(source: string, ds: seq<Discovered>)
    requires ds != []
    ensures KeysOf(source, ds) == KeysOf(source, ds[..|ds| - 1]) + {KeyOf(source, ds[|ds| - 1])}
  {
  }

  /** Kept by its steward, or new to the tenant. */
  predicate Entrusted(c: Catalog, k: Key, a: Asset, tenant: string) {
    if k in c.assets then SameStewardship(c.assets[k], a) else a.tenant == tenant && a.curated == NO_CURATION
  }

  /** Other assets stay as they are, and stewards keep what is theirs. */
  predicate FramedAssets(c: Catalog, r: Catalog, tenant: string, keys: set<Key>) {
    && r.assets.Keys == c.assets.Keys + keys
    && (forall k | k in c.assets && k !in keys :: r.assets[k] == c.assets[k])
    && (forall k | k in r.assets :: Entrusted(c, k, r.assets[k], tenant))
  }

  /** What a pass leaves alone: other assets, other documents and everything a steward owns. */
  predicate Framed(c: Catalog, r: Catalog, tenant: string, keys: set<Key>) {
    FramedAssets(c, r, tenant, keys) && Reindexed(c, r, keys)
  }

  predicate Reindexed(c: Catalog, r: Catalog, keys: set<Key>) {
    && keys <= r.assets.Keys
    && r.documents.Keys == c.documents.Keys + keys
    && (forall k | k in keys :: r.documents[k] == DocumentOf(r.assets[k]))
    && (forall k | k in c.documents && k !in keys :: r.documents[k] == c.documents[k])
  }

  lemma EntrustedStep(c: Catalog, m: Catalog, tenant: string, key: Key, a: Asset)
    requires c.assets.Keys <= m.assets.Keys
    requires key in m.assets ==> Entrusted(c, key, m.assets[key], tenant)
    requires Entrusted(m, key, a, tenant)
    ensures Entrusted(c, key, a, tenant)
  {
  }

  lemma KeysStep<V>(c: set<Key>, m: map<Key, V>, keys: set<Key>, key: Key, v: V)
    requires m.Keys == c + keys
    ensures m[key := v].Keys == c + (keys + {key})
  {
    assert m[key := v].Keys == m.Keys + {key};
  }

  lemma AssetsStep(c: Catalog, m: Catalog, r: Catalog, tenant: string, keys: set<Key>, key: Key, a: Asset)
    requires FramedAssets(c, m, tenant, keys) && Entrusted(m, key, a, tenant) && r.assets == m.assets[key := a]
    ensures FramedAssets(c, r, tenant, keys + {key})
  {
    KeysStep(c.assets.Keys, m.assets, keys, key, a);
    EntrustedStep(c, m, tenant, key, a);
    hide Entrusted;
    forall k | k in r.assets ensures Entrusted(c, k, r.assets[k], tenant) {
      if k != key { assert Entrusted(c, k, m.assets[k], tenant); }
    }
  }

  lemma FramedStep(c: Catalog, m: Catalog, tenant: string, keys: set<Key>, key: Key, a: Asset)
    requires Framed(c, m, tenant, keys) && Entrusted(m, key, a, tenant)
    ensures Framed(c, Catalog(m.assets[key := a], m.documents[key := DocumentOf(a)]), tenant, keys + {key})
  {
    hide DocumentOf, Reindexed, FramedAssets, Entrusted;
    ReindexedStep(c, m, keys, key, a, DocumentOf(a));
    AssetsStep(c, m, Catalog(m.assets[key := a], m.documents[key := DocumentOf(a)]), tenant, keys, key, a);
  }

  lemma ReindexedStep(c: Catalog, m: Catalog, keys: set<Key>, key: Key, a: Asset, doc: Document)
    requires Reindexed(c, m, keys) && doc == DocumentOf(a)
    ensures Reindexed(c, Catalog(m.assets[key := a], m.documents[key := doc]), keys + {key})
  {
    hide DocumentOf;
    var r := Catalog(m.assets[key := a], m.documents[key := doc]);
    forall k | k in keys + {key} ensures r.documents[k] == DocumentOf(r.assets[k]) {
      if k != key { assert k in keys && m.documents[k] == DocumentOf(m.assets[k]); }
    }
  }

  /** Only items of the pass wait to be flushed. */
  lemma {:induction false} UnflushedAreSeen(
    s: Synced, source: string, tenant: string, known: set<Key>, ds: seq<Discovered>, now: int)
    ensures var r := AbsorbAll(s, source, tenant, known, ds, now);
      r.Ok? ==> r.value.unflushed <= s.unflushed + KeysOf(source, ds)
  {
    hide DocumentOf, Rediscover, NewAsset, Differs;
    if ds != [] {
      UnflushedAreSeen(s, source, tenant, known, ds[..|ds| - 1], now);
      KeysOfAppend(source, ds);
      hide KeysOf;
    }
  }

  lemma {:induction false} AbsorbAllIsFramed(
    s: Synced, source: string, tenant: string, known: set<Key>, ds: seq<Discovered>, now: int, r: Synced)
    requires WellFormed(s.catalog) && AbsorbAll(s, source, tenant, known, ds, now) == Ok(r)
    ensures WellFormed(r.catalog) && Framed(s.catalog, r.catalog, tenant, KeysOf(source, ds))
  {
    hide DocumentOf, Merge, Diff;
    if ds != [] {
      var p, d := ds[..|ds| - 1], ds[|ds| - 1];
      var m := AbsorbAll(s, source, tenant, known, p, now).value;
      AbsorbAllIsFramed(s, source, tenant, known, p, now, m);
      AbsorbIsLocal(m, source, tenant, known, d, now, r);
      KeysOfAppend(source, ds);
      FramedStep(s.catalog, m.catalog, tenant, KeysOf(source, p), KeyOf(source, d), r.catalog.assets[KeyOf(source, d)]);
    }
  }

  /** The pass up to its last item, and that item. */
  lemma AbsorbAllSplits(s: Synced, source: string, tenant: string, known: set<Key>, ds: seq<Discovered>, now: int,
        r: Synced)
    requires ds != [] && AbsorbAll(s, source, tenant, known, ds, now) == Ok(r)
    ensures var m := AbsorbAll(s, source, tenant, known, ds[..|ds| - 1], now);
      m.Ok? && Absorb(m.value, source, tenant, known, ds[|ds| - 1], now) == Ok(r)
  {
    hide Absorb;
  }

  lemma LastOfPrefix(source: string, ds: seq<Discovered>, i: nat)
    requires i < |ds| - 1 && Last(source, ds, i)
    ensures Last(source, ds[..|ds| - 1], i) && KeyOf(source, ds[i]) != KeyOf(source, ds[|ds| - 1])
  {
  }

  lemma {:induction false} AbsorbAllIsCurrent(
    s: Synced, source: string, tenant: string, known: set<Key>, ds: seq<Discovered>, now: int, r: Synced, i: nat)
    requires WellFormed(s.catalog) && AbsorbAll(s, source, tenant, known, ds, now) == Ok(r)
    requires i < |ds| && Last(source, ds, i)
    ensures KeyOf(source, ds[i]) in r.catalog.assets && Current(r.catalog.assets[KeyOf(source, ds[i])], ds[i])
  {
    hide DocumentOf, AbsorbAll, Absorb, Framed, WellFormed, Current, Last;
    var p, d := ds[..|ds| - 1], ds[|ds| - 1];
    AbsorbAllSplits(s, source, tenant, known, ds, now, r);
    var m := AbsorbAll(s, source, tenant, known, p, now).value;
    AbsorbAllIsFramed(s, source, tenant, known, p, now, m);
    AbsorbIsLocal(m, source, tenant, known, d, now, r);
    if i < |p| {
      LastOfPrefix(source, ds, i);
      AbsorbAllIsCurrent(s, source, tenant, known, p, now, m, i);
    }
  }

  lemma {:induction false} AbsorbAllCounts(
    s: Synced, source: string, tenant: string, known: set<Key>, ds: seq<Discovered>, now: int, r: Synced)
    requires AbsorbAll(s, source, tenant, known, ds, now) == Ok(r)
    ensures r.stats.created + r.stats.updated + r.stats.same == s.stats.created + s.stats.updated + s.stats.same + |ds|
    ensures r.stats.discovered == s.stats.discovered && r.stats.columns == s.stats.columns + ColumnTotal(ds)
    ensures |r.catalog.assets| == |s.catalog.assets| + r.stats.created - s.stats.created
  {
    hide DocumentOf, Merge, Diff;
    if ds != [] {
      var m := AbsorbAll(s, source, tenant, known, ds[..|ds| - 1], now).value;
      AbsorbAllCounts(s, source, tenant, known, ds[..|ds| - 1], now, m);
      var key := KeyOf(source, ds[|ds| - 1]);
      assert r.catalog.assets.Keys == m.catalog.assets.Keys + {key};
      if key in m.catalog.assets { assert m.catalog.assets.Keys + {key} == m.catalog.assets.Keys; }
    }
  }

  /** An earlier item added the asset's first document, and no new asset came after it. */
  predicate Unflushed(c: Catalog, source: string, known: set<Key>, before: seq<Discovered>, key: Key) {
    && key !in c.documents && key in KeysOf(source, before)
    && forall m | 0 <= m < |before| && KeyOf(source, before[m]) !in known :: key !in KeysOf(source, before[..m])
  }

  /** The item can follow the ones before it, in rows that take it: a known key whose document takes what
      its steward has said and does not wait to be flushed, or a key that is new, with distinct column names. */
  predicate Follows(c: Catalog, source: string, tenant: string, before: seq<Discovered>, d: Discovered) {
    var key, known := KeyOf(source, d), KnownKeys(c, source, tenant);
    && RowsTake(d)
    && if key in known then Indexable(c.assets[key].curated) && !Unflushed(c, source, known, before, key)
       else key !in c.assets && UniqueNames(d.columns) && key !in KeysOf(source, before)
  }

  /** A pass succeeds exactly when every item can follow the ones before it. */
  predicate Insertable(c: Catalog, source: string, tenant: string, ds: seq<Discovered>) {
    forall i | 0 <= i < |ds| :: Follows(c, source, tenant, ds[..i], ds[i])
  }

  lemma UnflushedStep(c: Catalog, source: string, known: set<Key>, ds: seq<Discovered>, k: Key)
    requires ds != [] && k in known
    ensures var p, key := ds[..|ds| - 1], KeyOf(source, ds[|ds| - 1]);
      Unflushed(c, source, known, ds, k) <==>
        if key !in known then false
        else if key == k && k !in KeysOf(source, p) then k !in c.documents
        else Unflushed(c, source, known, p, k)
  {
    var p, n := ds[..|ds| - 1], |ds| - 1;
    KeysOfAppend(source, ds);
    assert ds[..n] == p;
    forall m | 0 <= m < n ensures p[m] == ds[m] && p[..m] == ds[..m] {}
    hide KeysOf;
    if k !in KeysOf(source, p) {
      forall m | 0 <= m < n ensures k !in KeysOf(source, ds[..m]) { KeysOfPrefix(source, p, m); }
    }
  }

  lemma KeysOfPrefix(source: string, ds: seq<Discovered>, m: nat)
    requires m <= |ds|
    ensures KeysOf(source, ds[..m]) <= KeysOf(source, ds)
  {
    forall k | k in KeysOf(source, ds[..m]) ensures k in KeysOf(source, ds) {
      var i :| 0 <= i < m && KeyOf(source, ds[..m][i]) == k;
      assert ds[i] == ds[..m][i];
    }
  }

  /** What a pass from `s` has done by the end of `ds`. */
  predicate Reached(s: Synced, r: Synced, source: string, known: set<Key>, ds: seq<Discovered>) {
    && r.catalog.assets.Keys == s.catalog.assets.Keys + KeysOf(source, ds)
    && r.catalog.documents.Keys == s.catalog.documents.Keys + KeysOf(source, ds)
    && (forall k | k in s.catalog.assets :: r.catalog.assets[k].curated == s.catalog.assets[k].curated)
    && forall k | k in known :: k in r.unflushed <==> Unflushed(s.catalog, source, known, ds, k)
  }

  lemma StartReached(s: Synced, source: string, known: set<Key>)
    requires s.unflushed == {}
    ensures Reached(s, s, source, known, [])
  {
  }

  lemma ReachedStep(s: Synced, m: Synced, r: Synced, source: string, tenant: string, known: set<Key>,
        ds: seq<Discovered>, now: int)
    requires ds != [] && Reached(s, m, source, known, ds[..|ds| - 1]) && known <= s.catalog.assets.Keys
    requires Absorb(m, source, tenant, known, ds[|ds| - 1], now) == Ok(r)
    ensures Reached(s, r, source, known, ds)
  {
    hide DocumentOf, Merge, Diff, KeysOf, Unflushed, NewAsset, Differs, FieldChanges, RowsTake, Indexable;
    var p, key := ds[..|ds| - 1], KeyOf(source, ds[|ds| - 1]);
    KeysOfAppend(source, ds);
    KeysStep(s.catalog.assets.Keys, m.catalog.assets, KeysOf(source, p), key, r.catalog.assets[key]);
    KeysStep(s.catalog.documents.Keys, m.catalog.documents, KeysOf(source, p), key, r.catalog.documents[key]);
    forall k | k in known ensures k in r.unflushed <==> Unflushed(s.catalog, source, known, ds, k) {
      UnflushedStep(s.catalog, source, known, ds, k);
      if k in s.catalog.documents || k !in KeysOf(source, p) { NotUnflushed(s.catalog, source, known, p, k); }
    }
  }

  lemma NotUnflushed(c: Catalog, source: string, known: set<Key>, before: seq<Discovered>, key: Key)
    requires key in c.documents || key !in KeysOf(source, before)
    ensures !Unflushed(c, source, known, before, key)
  {
  }

  lemma {:induction false} SucceedsExactly(s: Synced, source: string, tenant: string, ds: seq<Discovered>, now: int)
    requires s.unflushed == {}
    ensures var r := AbsorbAll(s, source, tenant, KnownKeys(s.catalog, source, tenant), ds, now);
      && (r.Ok? <==> Insertable(s.catalog, source, tenant, ds))
      && (r.Ok? ==> Reached(s, r.value, source, KnownKeys(s.catalog, source, tenant), ds))
  {
    hide Absorb, Reached, Follows;
    var known := KnownKeys(s.catalog, source, tenant);
    if ds == [] {
      StartReached(s, source, known);
    } else {
      var p, d := ds[..|ds| - 1], ds[|ds| - 1];
      SucceedsExactly(s, source, tenant, p, now);
      InsertablePrefix(s.catalog, source, tenant, ds);
      var m := AbsorbAll(s, source, tenant, known, p, now);
      if m.Ok? {
        AbsorbsIfFollows(s, m.value, source, tenant, p, d, now);
        var r := Absorb(m.value, source, tenant, known, d, now);
        if r.Ok? { ReachedStep(s, m.value, r.value, source, tenant, known, ds, now); }
      }
    }
  }

  lemma AbsorbsIfFollows(s: Synced, m: Synced, source: string, tenant: string, p: seq<Discovered>, d: Discovered,
        now: int)
    requires Reached(s, m, source, KnownKeys(s.catalog, source, tenant), p)
    ensures Absorb(m, source, tenant, KnownKeys(s.catalog, source, tenant), d, now).Ok? <==>
      Follows(s.catalog, source, tenant, p, d)
  {
    hide DocumentOf, Merge, Diff, KeysOf, Unflushed, Rediscover, NewAsset, Differs, RowsTake, Indexable;
  }

  lemma InsertablePrefix(c: Catalog, source: string, tenant: string, ds: seq<Discovered>)
    requires ds != []
    ensures Insertable(c, source, tenant, ds) <==>
            Insertable(c, source, tenant, ds[..|ds| - 1]) && Follows(c, source, tenant, ds[..|ds| - 1], ds[|ds| - 1])
  {
    hide Follows;
    var n := |ds| - 1;
    forall i | 0 <= i < n ensures ds[..n][..i] == ds[..i] && ds[..n][i] == ds[i] {}
  }

  /** Reconciliation is correct: whatever it is given, a pass that succeeds leaves every discovered
      asset equal to the last discovery of its key, touches nothing else, and its counters add up. */
  lemma SynchronizeIsCorrect(c: Catalog, source: string, tenant: string, ds: seq<Discovered>, now: int)
    requires WellFormed(c)
    ensures var r := Synchronize(c, source, tenant, ds, now);
      && (r.Ok? <==> Insertable(c, source, tenant, ds))
      && (r.Ok? ==>
            && WellFormed(r.value.catalog)
            && Framed(c, r.value.catalog, tenant, KeysOf(source, ds))
            && (forall i | 0 <= i < |ds| && Last(source, ds, i) ::
                  Current(r.value.catalog.assets[KeyOf(source, ds[i])], ds[i]))
            && r.value.stats.discovered == |ds| == r.value.stats.created + r.value.stats.updated + r.value.stats.same
            && r.value.stats.columns == ColumnTotal(ds)
            && r.value.stats.created == |r.value.catalog.assets| - |c.assets|)
  {
    hide DocumentOf, Merge, Diff, Framed, Current, WellFormed, Insertable, Reached, Last, ColumnTotal, AbsorbAll;
    var s, known := Start(c, |ds|), KnownKeys(c, source, tenant);
    SucceedsExactly(s, source, tenant, ds, now);
    var result := Synchronize(c, source, tenant, ds, now);
    if result.Ok? {
      var r := result.value;
      AbsorbAllIsFramed(s, source, tenant, known, ds, now, r);
      AbsorbAllCounts(s, source, tenant, known, ds, now, r);
      forall i | 0 <= i < |ds| && Last(source, ds, i)
        ensures KeyOf(source, ds[i]) in r.catalog.assets && Current(r.catalog.assets[KeyOf(source, ds[i])], ds[i])
      {
        AbsorbAllIsCurrent(s, source, tenant, known, ds, now, r, i);
      }
    }
  }

  // ---------------------------------------------------------------- repeating a pass

  /** The rows and the document of an asset take the item. */
  predicate Accepts(c: Catalog, source: string, d: Discovered) {
    RowsTake(d) && (KeyOf(source, d) in c.assets ==> Indexable(c.assets[KeyOf(source, d)].curated))
  }

  /** Equal up to the two discovery timestamps. */
  predicate SameButDates(c: Catalog, r: Catalog) {
    r.assets.Keys == c.assets.Keys && forall k | k in c.assets :: Undated(r.assets[k]) == Undated(c.assets[k])
  }

  /** A pass over current assets that have documents only writes timestamps and reports everything unchanged. */
  lemma {:induction false} AbsorbAllOfCurrent(
    s: Synced, source: string, tenant: string, known: set<Key>, ds: seq<Discovered>, now: int)
    requires WellFormed(s.catalog) && s.unflushed == {}
    requires forall d | d in ds :: KeyOf(source, d) in known && KeyOf(source, d) in s.catalog.documents
                                   && KeyOf(source, d) in s.catalog.assets && Accepts(s.catalog, source, d)
                                   && Current(s.catalog.assets[KeyOf(source, d)], d)
    ensures var r := AbsorbAll(s, source, tenant, known, ds, now);
      && r.Ok? && SameButDates(s.catalog, r.value.catalog) && r.value.stats.same == s.stats.same + |ds|
      && r.value.unflushed == {} && s.catalog.documents.Keys <= r.value.catalog.documents.Keys
  {
    hide DocumentOf, Merge, Diff;
    if ds != [] {
      var p, d := ds[..|ds| - 1], ds[|ds| - 1];
      assert forall x | x in p :: x in ds;
      AbsorbAllOfCurrent(s, source, tenant, known, p, now);
      var m := AbsorbAll(s, source, tenant, known, p, now).value;
      assert d in ds;
      AbsorbCurrent(s.catalog, m, source, tenant, known, d, now);
    }
  }

  lemma AbsorbCurrent(c: Catalog, m: Synced, source: string, tenant: string, known: set<Key>, d: Discovered, now: int)
    requires WellFormed(c) && SameButDates(c, m.catalog) && m.unflushed == {} && KeyOf(source, d) in m.catalog.documents
    requires KeyOf(source, d) in known && KeyOf(source, d) in c.assets && Current(c.assets[KeyOf(source, d)], d)
    requires Accepts(c, source, d)
    ensures var r := Absorb(m, source, tenant, known, d, now);
      && r.Ok? && SameButDates(c, r.value.catalog) && r.value.stats.same == m.stats.same + 1
      && r.value.unflushed == {} && m.catalog.documents.Keys <= r.value.catalog.documents.Keys
  {
    hide DocumentOf, Merge, Diff;
    var key := KeyOf(source, d);
    var a := m.catalog.assets[key];
    assert a.technical == Undated(a).technical && a.columns == Undated(a).columns && a.curated == Undated(a).curated;
    RediscoverIsExact(a, d, now);
  }

  lemma NoCurationIsIndexable()
    ensures Indexable(NO_CURATION)
  {
  }

  /** What a pass has taken it takes again. */
  lemma AcceptedAfterwards(c: Catalog, r: Catalog, source: string, tenant: string, ds: seq<Discovered>, i: nat)
    requires Insertable(c, source, tenant, ds) && Framed(c, r, tenant, KeysOf(source, ds)) && i < |ds|
    ensures Accepts(c, source, ds[i]) && Accepts(r, source, ds[i])
  {
    hide RowsTake, Indexable, Unflushed, Reindexed, KeysOf;
    NoCurationIsIndexable();
    assert Follows(c, source, tenant, ds[..i], ds[i]);
    var key := KeyOf(source, ds[i]);
    assert key in r.assets ==> Entrusted(c, key, r.assets[key], tenant);
  }

  lemma KnownAfterwards(c: Catalog, r: Catalog, source: string, tenant: string, ds: seq<Discovered>, i: nat)
    requires Insertable(c, source, tenant, ds) && Framed(c, r, tenant, KeysOf(source, ds)) && i < |ds|
    ensures KeyOf(source, ds[i]) in KnownKeys(r, source, tenant) && KeyOf(source, ds[i]) in r.documents
  {
    hide RowsTake, Indexable, Unflushed;
    var key := KeyOf(source, ds[i]);
    assert Follows(c, source, tenant, ds[..i], ds[i]) && key in KeysOf(source, ds);
    hide KeysOf;
    assert Entrusted(c, key, r.assets[key], tenant);
  }

  /** Repeating a sync of distinct assets reports everything unchanged and writes no version row. */
  lemma SynchronizeIsIdempotent(c: Catalog, source: string, tenant: string, ds: seq<Discovered>, now: int, later: int)
    requires WellFormed(c) && Distinct(source, ds)
    requires Synchronize(c, source, tenant, ds, now).Ok?
    ensures var once := Synchronize(c, source, tenant, ds, now).value.catalog;
      var again := Synchronize(once, source, tenant, ds, later);
      again.Ok? && again.value.stats.same == |ds| && SameButDates(once, again.value.catalog)
  {
    SynchronizeIsCorrect(c, source, tenant, ds, now);
    hide DocumentOf, Insertable, Framed, KeysOf, Current, Accepts, WellFormed, AbsorbAll, ColumnTotal;
    var once := Synchronize(c, source, tenant, ds, now).value.catalog;
    var known := KnownKeys(once, source, tenant);
    forall d | d in ds
      ensures KeyOf(source, d) in known && KeyOf(source, d) in once.documents && Accepts(once, source, d)
      ensures KeyOf(source, d) in once.assets && Current(once.assets[KeyOf(source, d)], d)
    {
      var i :| 0 <= i < |ds| && ds[i] == d;
      assert Last(source, ds, i);
      KnownAfterwards(c, once, source, tenant, ds, i);
      AcceptedAfterwards(c, once, source, tenant, ds, i);
    }
    AbsorbAllOfCurrent(Start(once, |ds|), source, tenant, known, ds, later);
  }

  lemma PairFollows(c: Catalog, source: string, tenant: string, a: Discovered, b: Discovered)
    requires KeyOf(source, a) == KeyOf(source, b) && KeyOf(source, b) in KnownKeys(c, source, tenant)
    requires KeyOf(source, b) in c.documents && Accepts(c, source, a) && Accepts(c, source, b)
    ensures Insertable(c, source, tenant, [a, b])
  {
    var known := KnownKeys(c, source, tenant);
    NotUnflushed(c, source, known, [], KeyOf(source, a));
    NotUnflushed(c, source, known, [a], KeyOf(source, b));
    hide Unflushed, KnownKeys, KeysOf;
    assert [a, b][..0] == [] && [a, b][..1] == [a];
  }

  /** Distinctness is needed: two rows of one known key that differ are both reported as updates by
      every pass, the repeated one included. */
  lemma RepeatedKeyIsNotIdempotent(c: Catalog, source: string, tenant: string, a: Discovered, b: Discovered, now: int)
    requires WellFormed(c) && KeyOf(source, a) == KeyOf(source, b) && KeyOf(source, b) in KnownKeys(c, source, tenant)
    requires KeyOf(source, b) in c.documents && Accepts(c, source, a) && Accepts(c, source, b) && Fields(a) != Fields(b)
    ensures var once := Synchronize(c, source, tenant, [a, b], now);
      once.Ok? && Synchronize(once.value.catalog, source, tenant, [a, b], now).Ok?
      && Synchronize(once.value.catalog, source, tenant, [a, b], now).value.stats.updated == 2
  {
    hide DocumentOf, Insertable, Current, WellFormed, AbsorbAll;
    PairFollows(c, source, tenant, a, b);
    SynchronizeIsCorrect(c, source, tenant, [a, b], now);
    var once := Synchronize(c, source, tenant, [a, b], now).value.catalog;
    assert KeyOf(source, b) in KeysOf(source, [a, b]) by { assert [a, b][1] == b; }
    assert Last(source, [a, b], 1);
    assert Current(once.assets[KeyOf(source, b)], [a, b][1]);
    BothUpdate(Start(once, 2), source, tenant, KnownKeys(once, source, tenant), a, b, now);
  }

  lemma BothUpdate(s: Synced, source: string, tenant: string, known: set<Key>, a: Discovered, b: Discovered, now: int)
    requires WellFormed(s.catalog) && KeyOf(source, a) == KeyOf(source, b) && KeyOf(source, b) in known
    requires s.unflushed == {} && KeyOf(source, b) in s.catalog.documents
    requires Accepts(s.catalog, source, a) && Accepts(s.catalog, source, b)
    requires KeyOf(source, b) in s.catalog.assets && Current(s.catalog.assets[KeyOf(source, b)], b)
    requires Fields(a) != Fields(b)
    ensures AbsorbAll(s, source, tenant, known, [a, b], now).Ok?
    ensures AbsorbAll(s, source, tenant, known, [a, b], now).value.stats.updated == s.stats.updated + 2
  {
    hide DocumentOf, Merge, Diff;
    assert [a, b][..1] == [a] && [a][..0] == [];
    assert AbsorbAll(s, source, tenant, known, [], now) == Ok(s);
    RediscoverIsExact(s.catalog.assets[KeyOf(source, a)], a, now);
    var first := Absorb(s, source, tenant, known, a, now).value;
    assert AbsorbAll(s, source, tenant, known, [a], now) == Ok(first);
    RediscoverIsExact(first.catalog.assets[KeyOf(source, b)], b, now);
  }
}
