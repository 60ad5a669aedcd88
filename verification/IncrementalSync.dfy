/** The fast schedule and the slow one: a Snowflake source synchronized incrementally keeps the same
    catalog as one rescanned in full every time, through failed and cancelled attempts and steward edits. */
module IncrementalSync {
  import opened Values
  import opened Columns
  import opened Assets
  import opened SearchIndex
  import opened Store
  import opened Reconcile
  import opened Snowflake
  import opened PartialSync
  import Curation
  import Proposals

  datatype Outcome = Completes | Fails | CancelledMeanwhile

  /** One attempt of a job: asked for in a mode, started at `now`, answered with the state of the source
      at time `at`, and applied at `appliedAt` if it completes. */
  datatype Attempt = Attempt(mode: SyncMode, now: int, at: int, snapshot: Snapshot, outcome: Outcome, appliedAt: int)

  datatype Step =
    | Sync(attempt: Attempt)
    | Steward(key: Key, updates: Curated, actor: string, when: int, domains: set<string>)
    | Executed(key: Key, changes: Curated, proposal: nat, actor: string, when: int)
    | Elsewhere(source: string, tenant: string, found: seq<Discovered>, when: int)

  /** The part of the database a schedule works on: the catalog and the source's cursor. */
  datatype State = State(catalog: Catalog, cursor: Cursor)

  function Found(src: DataSource, s: State, a: Attempt, mode: SyncMode): DiscoveryResult {
    Discovery(src, mode, s.cursor, a.now, a.snapshot)
  }

  /** Catalog and cursor change in one transaction, when the attempt completes and nothing is rejected. */
  function Applied(src: DataSource, s: State, a: Attempt, mode: SyncMode): Option<State> {
    if a.outcome != Completes then None
    else
      var found := Found(src, s, a, mode);
      var r := Synchronize(s.catalog, src.id, src.tenant, found.assets, a.appliedAt);
      if r.Ok? then Some(State(r.value.catalog, found.cursor)) else None
  }

  function Edit(c: Catalog, key: Key, updates: Curated, actor: string, when: int, domains: set<string>): Catalog {
    Curation.UpdateCuration(Db(c, [], [], [], [], [], map[], domains), key, updates, actor, when, false).catalog
  }

  /** An executed curation proposal changes one asset and no document. */
  function Execute(c: Catalog, key: Key, changes: Curated, proposal: nat, actor: string, when: int): Catalog {
    if key !in c.assets then c
    else c.(assets := c.assets[key := Proposals.Curate(c.assets[key], changes, proposal, actor, when)])
  }

  /** A pass of another source over the same catalog. */
  function Pass(c: Catalog, source: string, tenant: string, found: seq<Discovered>, when: int): Catalog {
    var r := Synchronize(c, source, tenant, found, when);
    if r.Ok? then r.value.catalog else c
  }

  function After(src: DataSource, s: State, step: Step, rescan: bool): State {
    match step
    case Sync(a) =>
      var r := Applied(src, s, a, if rescan then Full else a.mode);
      if r.Some? then r.value else s
    case Steward(key, updates, actor, when, domains) =>
      s.(catalog := Edit(s.catalog, key, updates, actor, when, domains))
    case Executed(key, changes, proposal, actor, when) =>
      s.(catalog := Execute(s.catalog, key, changes, proposal, actor, when))
    case Elsewhere(source, tenant, found, when) => s.(catalog := Pass(s.catalog, source, tenant, found, when))
  }

  function Schedule(src: DataSource, s: State, steps: seq<Step>, rescan: bool): State {
    if steps == [] then s else After(src, Schedule(src, s, steps[..|steps| - 1], rescan), steps[|steps| - 1], rescan)
  }

  // ---------------------------------------------------------------- what the source guarantees

  function AllAssets(src: DataSource, a: Attempt): seq<Discovered> {
    Containers(src, a.now) + AssetsOf(src, Relations(src, a.snapshot.tables, None), a.snapshot.columns, a.now)
  }

  /** LAST_ALTERED is not null and not ahead of the snapshot clock, names are not ambiguous, and the
      attempt started before it looked. */
  predicate Observed(src: DataSource, a: Attempt) {
    && a.now <= a.at
    && (forall row | row in a.snapshot.tables && InScope(src, row) ::
        row.lastAltered.Some? && row.lastAltered.value <= a.at)
    && Distinct(src.id, AllAssets(src, a))
  }

  /** Snapshots are taken in order. What a later one shows and an earlier one did not was altered no
      earlier than the overlap
      before the earlier one: visibility lags by at most the overlap. */
  predicate Lags(src: DataSource, a: Attempt, b: Attempt) {
    && a.at <= b.at
    && forall row | row in b.snapshot.tables && InScope(src, row) && row.lastAltered.Some? ::
      || row.lastAltered.value >= a.at - WATERMARK_OVERLAP
      || (row in a.snapshot.tables &&
          ColumnsOf(a.snapshot.columns, row.schema, row.name) == ColumnsOf(b.snapshot.columns, row.schema, row.name))
  }

  /** Executed curations say what the search index can take, and the other passes are of other sources. */
  predicate Guaranteed(src: DataSource, steps: seq<Step>) {
    && (forall i | 0 <= i < |steps| && steps[i].Executed? :: Indexable(steps[i].changes))
    && (forall i | 0 <= i < |steps| && steps[i].Elsewhere? :: steps[i].source != src.id)
    && (forall i | 0 <= i < |steps| && steps[i].Sync? :: Observed(src, steps[i].attempt))
    && (forall i, j | 0 <= i < j < |steps| && steps[i].Sync? && steps[j].Sync? ::
        Lags(src, steps[i].attempt, steps[j].attempt))
  }

  // ---------------------------------------------------------------- a partial pass picks

  function Flags(rows: seq<RelationRow>, cutoff: Option<int>): seq<bool> {
    seq(|rows|, i requires 0 <= i < |rows| => Recent(rows[i], cutoff))
  }

  function Always(n: nat): seq<bool> { seq(n, _ => true) }

  lemma {:induction false} RecentRowsArePicked(src: DataSource, tables: seq<RelationRow>, columns: seq<ColumnRow>,
      now: int, cutoff: Option<int>)
    ensures var all := Relations(src, tables, None);
      AssetsOf(src, Relations(src, tables, cutoff), columns, now) ==
        Pick(AssetsOf(src, all, columns, now), Flags(all, cutoff))
  {
    hide AssetOf, ColumnsOf, AssetsOf, Flags, Pick;
    if tables == [] {
      AppendRow(src, [], RelationRow("", "", "", None), columns, now, cutoff);
    } else {
      var p, row := tables[..|tables| - 1], tables[|tables| - 1];
      RecentRowsArePicked(src, p, columns, now, cutoff);
      var all, some := Relations(src, p, None), Relations(src, p, cutoff);
      assert all + [] == all && some + [] == some;
      if InScope(src, row) {
        AppendRow(src, all, row, columns, now, cutoff);
        AppendRow(src, some, row, columns, now, cutoff);
        PickAppend(AssetsOf(src, all, columns, now), Flags(all, cutoff),
                   AssetOf(src, row, ColumnsOf(columns, row.schema, row.name), now), Recent(row, cutoff));
      }
    }
  }

  lemma AppendRow(src: DataSource, rows: seq<RelationRow>, row: RelationRow, columns: seq<ColumnRow>, now: int,
      cutoff: Option<int>)
    ensures AssetsOf(src, rows + [row], columns, now) ==
            AssetsOf(src, rows, columns, now) + [AssetOf(src, row, ColumnsOf(columns, row.schema, row.name), now)]
    ensures Flags(rows + [row], cutoff) == Flags(rows, cutoff) + [Recent(row, cutoff)]
    ensures |AssetsOf(src, rows, columns, now)| == |rows| == |Flags(rows, cutoff)| && Pick([], []) == []
  {
  }

  lemma PickAppend(ds: seq<Discovered>, kept: seq<bool>, d: Discovered, keep: bool)
    requires |kept| == |ds|
    ensures Pick(ds + [d], kept + [keep]) == Pick(ds, kept) + if keep then [d] else []
  {
  }

  lemma {:induction false} PickAfter(front: seq<Discovered>, ds: seq<Discovered>, kept: seq<bool>)
    requires |kept| == |ds|
    ensures Pick(front + ds, Always(|front|) + kept) == front + Pick(ds, kept)
  {
    if ds == [] {
      assert front + ds == front && Always(|front|) + kept == Always(|front|);
      PickAll(front);
    } else {
      var n := |ds| - 1;
      PickAfter(front, ds[..n], kept[..n]);
      assert (front + ds)[..|front + ds| - 1] == front + ds[..n];
      assert (Always(|front|) + kept)[..|front + ds| - 1] == Always(|front|) + kept[..n];
    }
  }

  lemma {:induction false} PickAll(ds: seq<Discovered>)
    ensures Pick(ds, Always(|ds|)) == ds
  {
    if ds != [] {
      assert Always(|ds|)[..|ds| - 1] == Always(|ds| - 1);
      PickAll(ds[..|ds| - 1]);
      assert ds == ds[..|ds| - 1] + [ds[|ds| - 1]];
    }
  }

  /** What a pass in any mode found, as a selection of everything there was. */
  function Selection(src: DataSource, s: State, a: Attempt, mode: SyncMode): seq<bool> {
    Always(|Containers(src, a.now)|) +
      Flags(Relations(src, a.snapshot.tables, None), Cutoff(mode, ReadWatermark(s.cursor)))
  }

  lemma FoundIsSelected(src: DataSource, s: State, a: Attempt, mode: SyncMode)
    ensures |Selection(src, s, a, mode)| == |AllAssets(src, a)|
    ensures Found(src, s, a, mode).assets == Pick(AllAssets(src, a), Selection(src, s, a, mode))
    ensures Found(src, s, a, Full).assets == AllAssets(src, a)
    ensures Found(src, s, a, mode).cursor == Found(src, s, a, Full).cursor
  {
    hide AssetsOf, Containers, Pick;
    var cutoff := Cutoff(mode, ReadWatermark(s.cursor));
    var rows := Relations(src, a.snapshot.tables, None);
    var all := AssetsOf(src, rows, a.snapshot.columns, a.now);
    AssetsLength(src, rows, a.snapshot.columns, a.now);
    RecentRowsArePicked(src, a.snapshot.tables, a.snapshot.columns, a.now, cutoff);
    PickAfter(Containers(src, a.now), all, Flags(rows, cutoff));
    if cutoff.Some? { SkippedRowsDoNotMoveIt(src, a.snapshot.tables, ReadWatermark(s.cursor).value); }
  }

  lemma AssetsLength(src: DataSource, rows: seq<RelationRow>, columns: seq<ColumnRow>, now: int)
    ensures |AssetsOf(src, rows, columns, now)| == |rows|
  {
  }

  // ---------------------------------------------------------------- the invariant

  /** The last attempt that was applied. */
  function LastApplied(src: DataSource, s: State, steps: seq<Step>): Option<Attempt> {
    if steps == [] then None
    else
      var p, step := steps[..|steps| - 1], steps[|steps| - 1];
      if step.Sync? && Applied(src, Schedule(src, s, p, true), step.attempt, Full).Some? then Some(step.attempt)
      else LastApplied(src, s, p)
  }

  predicate Known(c: Catalog, src: DataSource, d: Discovered) {
    Shown(c, src.id, d) && Accepts(c, src.id, d) && KeyOf(src.id, d) in KnownKeys(c, src.id, src.tenant)
  }

  /** Everything the last applied snapshot showed is in the catalog, and the watermark is no later. */
  predicate CaughtUp(src: DataSource, s: State, last: Option<Attempt>) {
    && WellFormed(s.catalog)
    && (ReadWatermark(s.cursor).Some? ==>
          && last.Some? && ReadWatermark(s.cursor).value <= last.value.at
          && forall d | d in AllAssets(src, last.value) :: Known(s.catalog, src, d))
  }

  /** A row that the cutoff skips is unchanged since the last applied snapshot, so it is in the catalog. */
  lemma SkippedRowIsKnown(src: DataSource, s: State, last: Attempt, a: Attempt, row: RelationRow)
    requires CaughtUp(src, s, Some(last)) && Observed(src, a) && Lags(src, last, a)
    requires row in a.snapshot.tables && InScope(src, row)
    requires !Recent(row, Cutoff(Incremental, ReadWatermark(s.cursor)))
    ensures Known(s.catalog, src, AssetOf(src, row, ColumnsOf(a.snapshot.columns, row.schema, row.name), a.now))
  {
    hide InScope, ColumnsOf, Known, WellFormed, Distinct, Containers, Relations;
    assert row in last.snapshot.tables;
    var columns := ColumnsOf(a.snapshot.columns, row.schema, row.name);
    var earlier := AssetOf(src, row, columns, last.now);
    RelationIsFound(src, last, row);
    assert earlier in AllAssets(src, last);
    KnownIgnoresTime(s.catalog, src, row, columns, last.now, a.now);
  }

  lemma KnownIgnoresTime(c: Catalog, src: DataSource, row: RelationRow, columns: seq<Column>, before: int, now: int)
    requires Known(c, src, AssetOf(src, row, columns, before))
    ensures Known(c, src, AssetOf(src, row, columns, now))
  {
  }

  lemma {:induction false} InScopeIsListed(src: DataSource, tables: seq<RelationRow>, row: RelationRow)
    ensures row in Relations(src, tables, None) <==> row in tables && InScope(src, row)
  {
    hide InScope;
    if tables != [] {
      InScopeIsListed(src, tables[..|tables| - 1], row);
      assert tables == tables[..|tables| - 1] + [tables[|tables| - 1]];
    }
  }

  lemma RelationIsFound(src: DataSource, a: Attempt, row: RelationRow)
    requires row in a.snapshot.tables && InScope(src, row)
    ensures AssetOf(src, row, ColumnsOf(a.snapshot.columns, row.schema, row.name), a.now) in AllAssets(src, a)
  {
    hide AssetOf, ColumnsOf, Containers, Relations;
    InScopeIsListed(src, a.snapshot.tables, row);
    var rows := Relations(src, a.snapshot.tables, None);
    var i :| 0 <= i < |rows| && rows[i] == row;
    assert AssetsOf(src, rows, a.snapshot.columns, a.now)[i] ==
      AssetOf(src, row, ColumnsOf(a.snapshot.columns, row.schema, row.name), a.now);
  }

  lemma LeftOutIsKnown(src: DataSource, s: State, last: Option<Attempt>, a: Attempt, i: nat)
    requires CaughtUp(src, s, last) && Observed(src, a) && (last.Some? ==> Lags(src, last.value, a))
    requires |Selection(src, s, a, a.mode)| == |AllAssets(src, a)|
    requires i < |AllAssets(src, a)| && !Selection(src, s, a, a.mode)[i]
    ensures Known(s.catalog, src, AllAssets(src, a)[i])
  {
    hide Known, Containers, Distinct, WellFormed, AssetOf, ColumnsOf, Relations;
    var j, rows := i - |Containers(src, a.now)|, Relations(src, a.snapshot.tables, None);
    InScopeIsListed(src, a.snapshot.tables, rows[j]);
    SkippedRowIsKnown(src, s, last.value, a, rows[j]);
  }

  // ---------------------------------------------------------------- one step

  lemma PassKnowsAll(c: Catalog, src: DataSource, ds: seq<Discovered>, now: int)
    requires WellFormed(c) && Distinct(src.id, ds) && Synchronize(c, src.id, src.tenant, ds, now).Ok?
    ensures forall d | d in ds :: Known(Synchronize(c, src.id, src.tenant, ds, now).value.catalog, src, d)
  {
    hide Synchronize, Insertable, WellFormed, Distinct, Framed, Shown, Known;
    PassEffects(c, src.id, src.tenant, ds, now);
    forall d | d in ds ensures Known(Synchronize(c, src.id, src.tenant, ds, now).value.catalog, src, d) {
      var i :| 0 <= i < |ds| && ds[i] == d;
      KnownAfterPass(c, Synchronize(c, src.id, src.tenant, ds, now).value.catalog, src, ds, i);
    }
  }

  lemma NextWatermark(src: DataSource, s: State, last: Option<Attempt>, a: Attempt)
    requires CaughtUp(src, s, last) && Observed(src, a) && (last.Some? ==> last.value.at <= a.at)
    ensures var w := ReadWatermark(Found(src, s, a, Full).cursor); w.Some? ==> w.value <= a.at
  {
    hide Containers, AssetsOf, Relations, WellFormed, Known, AllAssets, Distinct, Latest;
    WatermarkBound(src, a, if ReadWatermark(s.cursor).Some? then ReadWatermark(s.cursor).value else a.now);
  }

  lemma SyncKeepsCaughtUp(src: DataSource, s: State, last: Option<Attempt>, a: Attempt)
    requires CaughtUp(src, s, last) && Observed(src, a) && (last.Some? ==> last.value.at <= a.at)
    requires Applied(src, s, a, Full).Some?
    ensures CaughtUp(src, Applied(src, s, a, Full).value, Some(a))
  {
    hide AllAssets, Found, Selection, WellFormed, Synchronize, Known, Distinct, ReadWatermark;
    FoundIsSelected(src, s, a, Full);
    NextWatermark(src, s, last, a);
    PassIsWellFormed(s.catalog, src.id, src.tenant, AllAssets(src, a), a.appliedAt);
    PassKnowsAll(s.catalog, src, AllAssets(src, a), a.appliedAt);
  }

  lemma PassIsWellFormed(c: Catalog, source: string, tenant: string, ds: seq<Discovered>, now: int)
    requires WellFormed(c) && Synchronize(c, source, tenant, ds, now).Ok?
    ensures WellFormed(Synchronize(c, source, tenant, ds, now).value.catalog)
  {
    hide AbsorbAll, WellFormed, Framed;
    AbsorbAllIsFramed(Start(c, |ds|), source, tenant, KnownKeys(c, source, tenant), ds, now,
                      Synchronize(c, source, tenant, ds, now).value);
  }

  lemma WatermarkBound(src: DataSource, a: Attempt, start: int)
    requires Observed(src, a) && start <= a.at
    ensures Latest(start, Relations(src, a.snapshot.tables, None)) <= a.at
  {
    hide InScope, Distinct, AllAssets;
    var rows := Relations(src, a.snapshot.tables, None);
    LatestIsMaximum(start, rows);
    hide Latest;
    if Latest(start, rows) != start {
      var r :| r in rows && r.lastAltered == Some(Latest(start, rows));
      InScopeIsListed(src, a.snapshot.tables, r);
    }
  }

  lemma KnownAfterPass(c: Catalog, d: Catalog, src: DataSource, ds: seq<Discovered>, i: nat)
    requires i < |ds| && Insertable(c, src.id, src.tenant, ds) && Framed(c, d, src.tenant, KeysOf(src.id, ds))
    requires Shown(d, src.id, ds[i])
    ensures Known(d, src, ds[i])
  {
    AcceptedAfterwards(c, d, src.id, src.tenant, ds, i);
    KnownAfterwards(c, d, src.id, src.tenant, ds, i);
    hide Insertable, Framed, Current, Accepts;
  }

  lemma EditEffects(c: Catalog, key: Key, updates: Curated, actor: string, when: int, domains: set<string>)
    ensures var d := Edit(c, key, updates, actor, when, domains);
      d.assets.Keys == c.assets.Keys && forall k | k in c.assets ::
        d.assets[k].technical == c.assets[k].technical && d.assets[k].columns == c.assets[k].columns
        && d.assets[k].tenant == c.assets[k].tenant
        && (Indexable(c.assets[k].curated) ==> Indexable(d.assets[k].curated))
  {
  }

  lemma EditKeepsCaughtUp(src: DataSource, s: State, last: Option<Attempt>, key: Key, updates: Curated, actor: string,
      when: int, domains: set<string>)
    requires CaughtUp(src, s, last)
    ensures CaughtUp(src, s.(catalog := Edit(s.catalog, key, updates, actor, when, domains)), last)
  {
    hide Edit, AllAssets, UniqueNames;
    EditEffects(s.catalog, key, updates, actor, when, domains);
    forall d | Known(s.catalog, src, d) ensures Known(Edit(s.catalog, key, updates, actor, when, domains), src, d) {}
    hide Known;
  }

  lemma EditedBoth(a: Asset, b: Asset, updates: Curated, actor: string, when: int)
    requires Undated(a) == Undated(b)
    ensures Curation.Edits(a, updates) == Curation.Edits(b, updates)
    ensures Undated(Curation.Edited(a, updates, actor, when)) == Undated(Curation.Edited(b, updates, actor, when))
  {
    assert a.curated == Undated(a).curated && b.curated == Undated(b).curated;
    assert Curation.Edits(a, updates) == Curation.Edits(b, updates);
    hide Curation.Edits, Curation.Afters;
    assert a.history == Undated(a).history && b.history == Undated(b).history;
  }

  lemma EditBoth(c: Catalog, d: Catalog, key: Key, updates: Curated, actor: string, when: int, domains: set<string>)
    requires SameButDates(c, d)
    ensures SameButDates(Edit(c, key, updates, actor, when, domains), Edit(d, key, updates, actor, when, domains))
  {
    if key in c.assets { EditedBoth(c.assets[key], d.assets[key], updates, actor, when); }
    hide Undated, DocumentOf, Storable, Curation.Edits, Curation.Edited, Curation.Afters;
  }

  // ---------------------------------------------------------------- executed curations

  lemma ExecuteKeepsCaughtUp(src: DataSource, s: State, last: Option<Attempt>, key: Key, changes: Curated,
        proposal: nat,
      actor: string, when: int)
    requires CaughtUp(src, s, last) && Indexable(changes)
    ensures CaughtUp(src, s.(catalog := Execute(s.catalog, key, changes, proposal, actor, when)), last)
  {
    hide AllAssets, UniqueNames, RowsTake, ReadWatermark;
    if key in s.catalog.assets { CurateIsHarmless(s.catalog.assets[key], changes, proposal, actor, when); }
    hide Proposals.Curate, Indexable;
    forall d | Known(s.catalog, src, d)
      ensures Known(Execute(s.catalog, key, changes, proposal, actor, when), src, d)
    {
    }
    hide Known;
  }

  lemma CurateIsHarmless(a: Asset, changes: Curated, proposal: nat, actor: string, when: int)
    requires Indexable(changes)
    ensures var b := Proposals.Curate(a, changes, proposal, actor, when);
      && b.technical == a.technical && b.columns == a.columns && b.tenant == a.tenant
      && (Indexable(a.curated) ==> Indexable(b.curated))
  {
  }

  lemma CuratedBoth(a: Asset, b: Asset, changes: Curated, proposal: nat, actor: string, when: int)
    requires Undated(a) == Undated(b)
    ensures Undated(Proposals.Curate(a, changes, proposal, actor, when)) ==
      Undated(Proposals.Curate(b, changes, proposal, actor, when))
  {
    assert a.curated == Undated(a).curated && b.curated == Undated(b).curated;
    assert a.history == Undated(a).history && b.history == Undated(b).history;
  }

  lemma ExecuteBoth(c: Catalog, d: Catalog, key: Key, changes: Curated, proposal: nat, actor: string, when: int)
    requires SameButDates(c, d)
    ensures SameButDates(Execute(c, key, changes, proposal, actor, when),
                         Execute(d, key, changes, proposal, actor, when))
  {
    if key in c.assets { CuratedBoth(c.assets[key], d.assets[key], changes, proposal, actor, when); }
    hide Undated, Proposals.Curate;
  }

  // ---------------------------------------------------------------- passes of other sources

  /** The catalogs have documents for the same assets of every other source. */
  ghost predicate SameElsewhere(src: DataSource, c: Catalog, d: Catalog) {
    forall k: Key | k.source != src.id :: k in c.documents <==> k in d.documents
  }

  ghost predicate Twins(src: DataSource, s: Synced, t: Synced) {
    SameButDates(s.catalog, t.catalog) && SameElsewhere(src, s.catalog, t.catalog) && s.unflushed == t.unflushed
  }

  /** Where an item that is absorbed leaves documents, and which of them wait to be flushed. */
  lemma AbsorbedPlaces(s: Synced, source: string, tenant: string, known: set<Key>, d: Discovered, now: int)
    ensures var r, key := Absorb(s, source, tenant, known, d, now), KeyOf(source, d);
      r.Ok? ==>
        && r.value.catalog.documents.Keys == s.catalog.documents.Keys + {key}
        && r.value.unflushed ==
           if key !in known || key !in s.catalog.assets then {key}
           else if key in s.catalog.documents then s.unflushed else s.unflushed + {key}
  {
    hide DocumentOf, Rediscover, NewAsset, Differs, RowsTake, Indexable, UniqueNames;
  }

  lemma AbsorbElsewhere(src: DataSource, s: Synced, t: Synced, source: string, tenant: string, known: set<Key>,
      d: Discovered, now: int)
    requires source != src.id && Twins(src, s, t)
    ensures var f, p := Absorb(s, source, tenant, known, d, now), Absorb(t, source, tenant, known, d, now);
      f.Ok? == p.Ok? && (f.Ok? ==> Twins(src, f.value, p.value))
  {
    AbsorbBoth(s, t, source, tenant, known, d, now);
    AbsorbedPlaces(s, source, tenant, known, d, now);
    AbsorbedPlaces(t, source, tenant, known, d, now);
    assert (KeyOf(source, d) in s.catalog.assets) == (KeyOf(source, d) in t.catalog.assets);
    hide Absorb, SameButDates;
  }

  lemma {:induction false} AbsorbAllElsewhere(src: DataSource, s: Synced, t: Synced, source: string, tenant: string,
      known: set<Key>, ds: seq<Discovered>, now: int)
    requires source != src.id && Twins(src, s, t)
    ensures var f, p := AbsorbAll(s, source, tenant, known, ds, now), AbsorbAll(t, source, tenant, known, ds, now);
      f.Ok? == p.Ok? && (f.Ok? ==> Twins(src, f.value, p.value))
  {
    hide Absorb, Twins;
    if ds != [] {
      var q, d := ds[..|ds| - 1], ds[|ds| - 1];
      AbsorbAllElsewhere(src, s, t, source, tenant, known, q, now);
      var m, n := AbsorbAll(s, source, tenant, known, q, now), AbsorbAll(t, source, tenant, known, q, now);
      if m.Ok? { AbsorbElsewhere(src, m.value, n.value, source, tenant, known, d, now); }
    }
  }

  lemma SameKnownKeys(c: Catalog, d: Catalog, source: string, tenant: string)
    requires SameButDates(c, d)
    ensures KnownKeys(c, source, tenant) == KnownKeys(d, source, tenant)
  {
    forall k | k in c.assets ensures c.assets[k].tenant == d.assets[k].tenant {
      assert Undated(c.assets[k]).tenant == Undated(d.assets[k]).tenant;
    }
  }

  lemma PassBoth(src: DataSource, c: Catalog, d: Catalog, source: string, tenant: string, found: seq<Discovered>,
        when: int)
    requires source != src.id && SameButDates(c, d) && SameElsewhere(src, c, d)
    ensures var f, p := Pass(c, source, tenant, found, when), Pass(d, source, tenant, found, when);
      SameButDates(f, p) && SameElsewhere(src, f, p)
  {
    SameKnownKeys(c, d, source, tenant);
    hide SameButDates, SameElsewhere, KnownKeys;
    AbsorbAllElsewhere(src, Start(c, |found|), Start(d, |found|), source, tenant, KnownKeys(c, source, tenant),
                       found, when);
  }

  lemma PassKeepsCaughtUp(src: DataSource, s: State, last: Option<Attempt>, source: string, tenant: string,
      found: seq<Discovered>, when: int)
    requires CaughtUp(src, s, last) && source != src.id
    ensures CaughtUp(src, s.(catalog := Pass(s.catalog, source, tenant, found, when)), last)
  {
    hide WellFormed, AbsorbAll, AllAssets, ReadWatermark, Known;
    if Synchronize(s.catalog, source, tenant, found, when).Ok? {
      var r := Synchronize(s.catalog, source, tenant, found, when).value.catalog;
      PassIsWellFormed(s.catalog, source, tenant, found, when);
      AbsorbAllIsFramed(Start(s.catalog, |found|), source, tenant, KnownKeys(s.catalog, source, tenant), found, when,
                        Synchronize(s.catalog, source, tenant, found, when).value);
      hide Framed, Synchronize;
      forall d | Known(s.catalog, src, d)
        ensures Known(r, src, d)
      {
        KnownElsewhere(src, s.catalog, r, source, tenant, found, d);
      }
    }
  }

  lemma KnownElsewhere(src: DataSource, c: Catalog, r: Catalog, source: string, tenant: string, found: seq<Discovered>,
      d: Discovered)
    requires source != src.id && Framed(c, r, tenant, KeysOf(source, found)) && Known(c, src, d)
    ensures Known(r, src, d)
  {
    hide Reindexed, Current, RowsTake, Indexable;
    assert KeyOf(src.id, d) !in KeysOf(source, found);
  }

  // ---------------------------------------------------------------- the theorem

  ghost predicate Agree(src: DataSource, full: State, fast: State) {
    && SameButDates(full.catalog, fast.catalog) && SameElsewhere(src, full.catalog, fast.catalog)
    && full.cursor == fast.cursor
  }

  /** A pass adds documents of its own source only. */
  lemma PassStaysAtHome(src: DataSource, c: Catalog, ds: seq<Discovered>, now: int)
    requires WellFormed(c) && Synchronize(c, src.id, src.tenant, ds, now).Ok?
    ensures SameElsewhere(src, c, Synchronize(c, src.id, src.tenant, ds, now).value.catalog)
  {
    hide WellFormed, Synchronize, Insertable, FramedAssets, Distinct;
    PassEffects(c, src.id, src.tenant, ds, now);
  }

  lemma SameShape(c: Catalog, d: Catalog)
    requires SameButDates(c, d) && WellFormed(c)
    ensures WellFormed(d)
  {
    hide UniqueNames;
    forall k | k in d.assets ensures UniqueNames(d.assets[k].columns) {
      assert Undated(c.assets[k]).columns == Undated(d.assets[k]).columns;
    }
  }

  lemma SyncAgrees(src: DataSource, full: State, fast: State, last: Option<Attempt>, a: Attempt)
    requires Agree(src, full, fast) && CaughtUp(src, full, last) && Observed(src, a)
    requires last.Some? ==> Lags(src, last.value, a)
    ensures var f, p := Applied(src, full, a, Full), Applied(src, fast, a, a.mode);
      f.Some? == p.Some? && (f.Some? ==> Agree(src, f.value, p.value))
  {
    hide AssetsOf, Containers, Relations, WellFormed, AbsorbAll, SameButDates, SameElsewhere, Pick, Lags, Known;
    FoundIsSelected(src, full, a, a.mode);
    forall i | 0 <= i < |AllAssets(src, a)| && !Selection(src, full, a, a.mode)[i]
      ensures Known(full.catalog, src, AllAssets(src, a)[i])
    {
      LeftOutIsKnown(src, full, last, a, i);
    }
    var ds, kept := AllAssets(src, a), Selection(src, full, a, a.mode);
    hide AllAssets, Selection, Observed, CaughtUp;
    PassesAgree(src, full.catalog, fast.catalog, ds, kept, a);
  }

  lemma PassesAgree(src: DataSource, c: Catalog, d: Catalog, ds: seq<Discovered>, kept: seq<bool>, a: Attempt)
    requires |kept| == |ds| && Distinct(src.id, ds) && WellFormed(c) && SameButDates(c, d) && SameElsewhere(src, c, d)
    requires forall i | 0 <= i < |ds| && !kept[i] :: Known(c, src, ds[i])
    ensures var f, p := Synchronize(c, src.id, src.tenant, ds, a.appliedAt),
      Synchronize(d, src.id, src.tenant, Pick(ds, kept), a.appliedAt);
      && f.Ok? == p.Ok?
      && (f.Ok? ==>
          SameButDates(f.value.catalog, p.value.catalog) && SameElsewhere(src, f.value.catalog, p.value.catalog))
  {
    hide AbsorbAll, WellFormed, Distinct, Shown, Pick, Accepts;
    SameKnownKeys(c, d, src.id, src.tenant);
    SameShape(c, d);
    hide SameButDates, KnownKeys, SameElsewhere;
    PartialEqualsFull(Start(c, |ds|), Start(d, |Pick(ds, kept)|), src.id, src.tenant,
                      KnownKeys(c, src.id, src.tenant), ds, kept, a.appliedAt);
    var f, p := Synchronize(c, src.id, src.tenant, ds, a.appliedAt),
      Synchronize(d, src.id, src.tenant, Pick(ds, kept), a.appliedAt);
    if f.Ok? {
      PassStaysAtHome(src, c, ds, a.appliedAt);
      PassStaysAtHome(src, d, Pick(ds, kept), a.appliedAt);
      ElsewhereComposes(src, c, d, f.value.catalog, p.value.catalog);
    }
  }

  lemma ElsewhereComposes(src: DataSource, c: Catalog, d: Catalog, f: Catalog, p: Catalog)
    requires SameElsewhere(src, c, d) && SameElsewhere(src, c, f) && SameElsewhere(src, d, p)
    ensures SameElsewhere(src, f, p)
  {
  }

  lemma {:induction false} LastAppliedIsAStep(src: DataSource, s: State, steps: seq<Step>) returns (i: nat)
    requires LastApplied(src, s, steps).Some?
    ensures i < |steps| && steps[i].Sync? && steps[i].attempt == LastApplied(src, s, steps).value
  {
    hide Applied, Schedule;
    var p, step := steps[..|steps| - 1], steps[|steps| - 1];
    if step.Sync? && Applied(src, Schedule(src, s, p, true), step.attempt, Full).Some? {
      i := |steps| - 1;
    } else {
      i := LastAppliedIsAStep(src, s, p);
    }
  }

  /** Incremental equals full: over any schedule of completed, failed and cancelled attempts, steward edits,
      executed curations and passes of other sources, for a source that keeps its guarantees, synchronizing
      in the requested modes ends with the same cursor and, up to the two discovery timestamps, the same
      catalog, version histories included, as rescanning the source in full every time. */
  lemma {:induction false} IncrementalEqualsFull(src: DataSource, s: State, steps: seq<Step>)
    requires WellFormed(s.catalog) && ReadWatermark(s.cursor).None? && Guaranteed(src, steps)
    ensures Agree(src, Schedule(src, s, steps, true), Schedule(src, s, steps, false))
    ensures CaughtUp(src, Schedule(src, s, steps, true), LastApplied(src, s, steps))
  {
    hide Applied, Edit, Execute, Pass, Observed, Lags, AllAssets, WellFormed, SameElsewhere, Indexable;
    if steps == [] {
      StartSame(s.catalog);
      assert SameElsewhere(src, s.catalog, s.catalog) by { ElsewhereIsReflexive(src, s.catalog); }
    } else {
      var n := |steps| - 1;
      var p, step := steps[..n], steps[n];
      IncrementalEqualsFull(src, s, p);
      var full, fast, last := Schedule(src, s, p, true), Schedule(src, s, p, false), LastApplied(src, s, p);
      match step
      case Sync(a) =>
        if last.Some? { var i := LastAppliedIsAStep(src, s, p); assert p[i] == steps[i]; }
        hide Guaranteed, CaughtUp;
        SyncAgrees(src, full, fast, last, a);
        if Applied(src, full, a, Full).Some? {
          if last.Some? { LagsInOrder(src, last.value, a); }
          SyncKeepsCaughtUp(src, full, last, a);
        }
      case Steward(key, updates, actor, when, domains) =>
        hide Guaranteed, CaughtUp;
        EditKeepsCaughtUp(src, full, last, key, updates, actor, when, domains);
        EditBoth(full.catalog, fast.catalog, key, updates, actor, when, domains);
        EditElsewhere(src, full.catalog, fast.catalog, key, updates, actor, when, domains);
      case Executed(key, changes, proposal, actor, when) =>
        hide CaughtUp;
        ExecuteKeepsCaughtUp(src, full, last, key, changes, proposal, actor, when);
        ExecuteBoth(full.catalog, fast.catalog, key, changes, proposal, actor, when);
        ExecuteElsewhere(src, full.catalog, fast.catalog, key, changes, proposal, actor, when);
      case Elsewhere(source, tenant, found, when) =>
        hide CaughtUp;
        PassKeepsCaughtUp(src, full, last, source, tenant, found, when);
        PassBoth(src, full.catalog, fast.catalog, source, tenant, found, when);
    }
  }

  lemma ElsewhereIsReflexive(src: DataSource, c: Catalog)
    ensures SameElsewhere(src, c, c)
  {
  }

  lemma EditElsewhere(src: DataSource, c: Catalog, d: Catalog, key: Key, updates: Curated, actor: string, when: int,
      domains: set<string>)
    requires SameButDates(c, d) && SameElsewhere(src, c, d)
    ensures SameElsewhere(src, Edit(c, key, updates, actor, when, domains), Edit(d, key, updates, actor, when, domains))
  {
    if key in c.assets { EditedBoth(c.assets[key], d.assets[key], updates, actor, when); }
    hide DocumentOf, Storable, Indexable, Curation.Edits, Curation.Afters, Curation.Edited;
  }

  lemma ExecuteElsewhere(src: DataSource, c: Catalog, d: Catalog, key: Key, changes: Curated, proposal: nat,
        actor: string,
      when: int)
    requires SameElsewhere(src, c, d)
    ensures SameElsewhere(src, Execute(c, key, changes, proposal, actor, when),
                          Execute(d, key, changes, proposal, actor, when))
  {
  }

  lemma LagsInOrder(src: DataSource, a: Attempt, b: Attempt)
    requires Lags(src, a, b)
    ensures a.at <= b.at
  {
  }

  // ---------------------------------------------------------------- the search documents

  /** The index holds the present document of every asset and nothing else. */
  predicate Indexed(c: Catalog) {
    c.documents.Keys == c.assets.Keys && forall k | k in c.assets :: Documented(c, k)
  }

  lemma PassKeepsIndexed(c: Catalog, source: string, tenant: string, ds: seq<Discovered>, now: int)
    requires WellFormed(c) && Indexed(c) && Synchronize(c, source, tenant, ds, now).Ok?
    ensures Indexed(Synchronize(c, source, tenant, ds, now).value.catalog)
  {
    hide DocumentOf, WellFormed, AbsorbAll, SameStewardship;
    AbsorbAllIsFramed(Start(c, |ds|), source, tenant, KnownKeys(c, source, tenant), ds, now,
                      Synchronize(c, source, tenant, ds, now).value);
  }

  lemma EditKeepsIndexed(c: Catalog, key: Key, updates: Curated, actor: string, when: int, domains: set<string>)
    requires Indexed(c)
    ensures Indexed(Edit(c, key, updates, actor, when, domains))
    ensures WellFormed(c) ==> WellFormed(Edit(c, key, updates, actor, when, domains))
  {
    EditEffects(c, key, updates, actor, when, domains);
    hide DocumentOf, Curation.Edits, Curation.Afters, Curation.Edited, Storable, UniqueNames;
  }

  /** No step leaves a document behind: no curation proposal is executed. */
  predicate Reindexing(steps: seq<Step>) { forall i | 0 <= i < |steps| :: !steps[i].Executed? }

  lemma {:induction false} ScheduleIsIndexed(src: DataSource, s: State, steps: seq<Step>, rescan: bool)
    requires WellFormed(s.catalog) && Indexed(s.catalog) && Reindexing(steps)
    ensures var c := Schedule(src, s, steps, rescan).catalog; WellFormed(c) && Indexed(c)
  {
    hide WellFormed, Indexed, Edit, Synchronize, Found;
    if steps != [] {
      var n := |steps| - 1;
      ScheduleIsIndexed(src, s, steps[..n], rescan);
      var before := Schedule(src, s, steps[..n], rescan);
      match steps[n]
      case Sync(a) =>
        var mode := if rescan then Full else a.mode;
        if Applied(src, before, a, mode).Some? {
          PassIsWellFormed(before.catalog, src.id, src.tenant, Found(src, before, a, mode).assets, a.appliedAt);
          PassKeepsIndexed(before.catalog, src.id, src.tenant, Found(src, before, a, mode).assets, a.appliedAt);
        }
      case Steward(key, updates, actor, when, domains) =>
        EditKeepsIndexed(before.catalog, key, updates, actor, when, domains);
      case Executed(_, _, _, _, _) => assert false;
      case Elsewhere(source, tenant, found, when) =>
        if Synchronize(before.catalog, source, tenant, found, when).Ok? {
          PassIsWellFormed(before.catalog, source, tenant, found, when);
          PassKeepsIndexed(before.catalog, source, tenant, found, when);
        }
    }
  }

  lemma SameIndex(c: Catalog, d: Catalog)
    requires Indexed(c) && Indexed(d) && SameButDates(c, d)
    ensures c.documents == d.documents
  {
    hide DocumentOf, Undated;
    forall k | k in c.documents ensures c.documents[k] == d.documents[k] {
      assert Documented(c, k) && Documented(d, k);
      SameDocument(c.assets[k], d.assets[k]);
    }
  }

  /** And search sees no difference: from an index that is true to the catalog, and without executed
      curations, which reindex nothing, both schedules end with the same documents. */
  lemma DocumentsAgree(src: DataSource, s: State, steps: seq<Step>)
    requires WellFormed(s.catalog) && Indexed(s.catalog) && ReadWatermark(s.cursor).None? && Guaranteed(src, steps)
    requires Reindexing(steps)
    ensures Schedule(src, s, steps, true).catalog.documents == Schedule(src, s, steps, false).catalog.documents
  {
    IncrementalEqualsFull(src, s, steps);
    ScheduleIsIndexed(src, s, steps, true);
    ScheduleIsIndexed(src, s, steps, false);
    hide Schedule, CaughtUp, Indexed, Guaranteed, SameButDates, SameElsewhere, Reindexing;
    SameIndex(Schedule(src, s, steps, true).catalog, Schedule(src, s, steps, false).catalog);
  }

  // ---------------------------------------------------------------- one pass, exactly

  /** The asset that a row of the attempt's snapshot is discovered as. */
  function AssetAt(src: DataSource, a: Attempt, row: RelationRow): Discovered {
    AssetOf(src, row, ColumnsOf(a.snapshot.columns, row.schema, row.name), a.now)
  }

  predicate Skipped(src: DataSource, a: Attempt, row: RelationRow, w: int) {
    row in a.snapshot.tables && InScope(src, row) && !Recent(row, Some(w - WATERMARK_OVERLAP))
  }

  lemma SkippedByIndex(src: DataSource, s: State, a: Attempt, w: int, i: nat) returns (row: RelationRow)
    requires ReadWatermark(s.cursor) == Some(w) && |Selection(src, s, a, Incremental)| == |AllAssets(src, a)|
    requires i < |AllAssets(src, a)| && !Selection(src, s, a, Incremental)[i]
    ensures Skipped(src, a, row, w) && AllAssets(src, a)[i] == AssetAt(src, a, row)
  {
    hide InScope, Relations, AssetOf, ColumnsOf, Containers;
    row := Relations(src, a.snapshot.tables, None)[i - |Containers(src, a.now)|];
    InScopeIsListed(src, a.snapshot.tables, row);
  }

  lemma SkippedByRow(src: DataSource, s: State, a: Attempt, w: int, row: RelationRow) returns (i: nat)
    requires ReadWatermark(s.cursor) == Some(w) && |Selection(src, s, a, Incremental)| == |AllAssets(src, a)|
    requires Skipped(src, a, row, w)
    ensures i < |AllAssets(src, a)| && !Selection(src, s, a, Incremental)[i]
    ensures AllAssets(src, a)[i] == AssetAt(src, a, row)
  {
    hide InScope, Relations, AssetOf, ColumnsOf, Containers;
    var rows := Relations(src, a.snapshot.tables, None);
    InScopeIsListed(src, a.snapshot.tables, row);
    var j :| 0 <= j < |rows| && rows[j] == row;
    i := |Containers(src, a.now)| + j;
  }

  /** When a full pass would succeed, an incremental pass over the same snapshot leaves the same catalog
      if and only if every row it skipped was already shown. */
  lemma IncrementalPassIsExact(src: DataSource, s: State, a: Attempt, w: int)
    requires WellFormed(s.catalog) && Distinct(src.id, AllAssets(src, a)) && ReadWatermark(s.cursor) == Some(w)
    requires Applied(src, s, a, Full).Some?
    ensures Applied(src, s, a, Incremental).Some?
    ensures SameButDates(Applied(src, s, a, Full).value.catalog, Applied(src, s, a, Incremental).value.catalog) <==>
      forall row | Skipped(src, a, row, w) :: Shown(s.catalog, src.id, AssetAt(src, a, row))
  {
    hide WellFormed, AbsorbAll, SameButDates, Pick, AssetAt, Relations, Shown, Skipped, Distinct, Synchronize,
         ReadWatermark;
    FoundIsSelected(src, s, a, Incremental);
    var ds, kept := AllAssets(src, a), Selection(src, s, a, Incremental);
    hide AllAssets, Selection;
    PartialIsExact(s.catalog, src.id, src.tenant, ds, kept, a.appliedAt);
    forall i | 0 <= i < |ds| && !kept[i]
      ensures exists row :: Skipped(src, a, row, w) && ds[i] == AssetAt(src, a, row)
    {
      var row := SkippedByIndex(src, s, a, w, i);
    }
    forall row | Skipped(src, a, row, w) ensures exists i | 0 <= i < |ds| && !kept[i] :: ds[i] == AssetAt(src, a, row) {
      var i := SkippedByRow(src, s, a, w, row);
    }
  }

  /** So the guarantees are needed: a row without LAST_ALTERED, or one altered before the cutoff that
      became visible too late, is skipped, and its change is missed. */
  lemma SkippedChangeIsMissed(src: DataSource, s: State, a: Attempt, w: int, row: RelationRow)
    requires WellFormed(s.catalog) && Distinct(src.id, AllAssets(src, a)) && ReadWatermark(s.cursor) == Some(w)
    requires Applied(src, s, a, Full).Some?
    requires row in a.snapshot.tables && InScope(src, row)
    requires row.lastAltered.None? || row.lastAltered.value < w - WATERMARK_OVERLAP
    requires !Shown(s.catalog, src.id, AssetAt(src, a, row))
    ensures var fast := Applied(src, s, a, Incremental);
      fast.Some? && !SameButDates(Applied(src, s, a, Full).value.catalog, fast.value.catalog)
  {
    hide Applied, Shown, AssetAt, Distinct, AllAssets, SameButDates, WellFormed, InScope;
    IncrementalPassIsExact(src, s, a, w);
    assert Skipped(src, a, row, w);
  }
}
