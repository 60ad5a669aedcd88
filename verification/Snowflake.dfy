/** The Snowflake connector of apps/catalog-api/app/connectors/snowflake.py: discovery over one snapshot
    of INFORMATION_SCHEMA, with the LAST_ALTERED watermark as its cursor. Times are seconds. */
module Snowflake {
  import opened Values
  import opened Columns
  import opened Assets

  datatype SyncMode = Full | Incremental

  datatype DataSource = DataSource(id: string, tenant: string, account: string, database: string, schemas: seq<string>)

  datatype RelationRow = RelationRow(schema: string, name: string, kind: string, lastAltered: Option<int>)

  datatype ColumnRow = ColumnRow(schema: string, relation: string, column: Column)

  /** The two result sets, in the order the queries ask for. */
  datatype Snapshot = Snapshot(tables: seq<RelationRow>, columns: seq<ColumnRow>)

  type Cursor = map<string, Json>

  datatype DiscoveryResult = DiscoveryResult(assets: seq<Discovered>, cursor: Cursor, mode: SyncMode,
                                             cutoff: Option<int>)

  const WATERMARK_OVERLAP := 5 * 60

  // ---------------------------------------------------------------- specification

  /** A timestamp in a cursor is a number here; anything else reads as no watermark. */
  function ReadWatermark(cursor: Cursor): Option<int> {
    if "last_successful_watermark" in cursor && cursor["last_successful_watermark"].JInt?
    then Some(cursor["last_successful_watermark"].n) else None
  }

  function NextCursor(watermark: int): Cursor {
    map["last_successful_watermark" := JInt(watermark), "overlap_seconds" := JInt(WATERMARK_OVERLAP),
        "strategy" := JText("snowflake_last_altered")]
  }

  function EffectiveMode(mode: SyncMode, prior: Option<int>): SyncMode {
    if mode == Full || prior.None? then Full else Incremental
  }

  function Cutoff(mode: SyncMode, prior: Option<int>): Option<int> {
    if EffectiveMode(mode, prior) == Incremental then Some(prior.value - WATERMARK_OVERLAP) else None
  }

  predicate InScope(src: DataSource, row: RelationRow) {
    row.schema in src.schemas && row.kind in {"BASE TABLE", "VIEW"}
  }

  /** `LAST_ALTERED >= cutoff`: a comparison with NULL is not true. */
  predicate Recent(row: RelationRow, cutoff: Option<int>) {
    cutoff.None? || (row.lastAltered.Some? && row.lastAltered.value >= cutoff.value)
  }

  function Relations(src: DataSource, tables: seq<RelationRow>, cutoff: Option<int>): seq<RelationRow> {
    if tables == [] then []
    else
      var row := tables[|tables| - 1];
      Relations(src, tables[..|tables| - 1], cutoff) + if InScope(src, row) && Recent(row, cutoff) then [row] else []
  }

  function ColumnsOf(rows: seq<ColumnRow>, schema: string, relation: string): seq<Column> {
    if rows == [] then []
    else
      var r := rows[|rows| - 1];
      ColumnsOf(rows[..|rows| - 1], schema, relation) + if r.schema == schema && r.relation == relation
        then [r.column] else []
  }

  const ENGINE := "snowflake"

  function Container(src: DataSource, assetType: AssetType, qualified: string, name: string, schema: Option<string>,
      now: int): Discovered
  {
    Discovered(assetType, qualified, name, Some(src.database), schema, None,
               JObject(map["engine" := JText(ENGINE), "account" := JText(src.account)]), None, Some(now), [])
  }

  function Containers(src: DataSource, now: int): seq<Discovered> {
    [Container(src, Database, src.database, src.database, None, now)] +
    seq(|src.schemas|, i requires 0 <= i < |src.schemas| =>
      Container(src, Schema, src.database + "." + src.schemas[i], src.schemas[i], Some(src.schemas[i]), now))
  }

  function AssetOf(src: DataSource, row: RelationRow, columns: seq<Column>, now: int): Discovered {
    Discovered(if row.kind == "BASE TABLE" then Table
               else View, src.database + "." + row.schema + "." + row.name, row.name,
               Some(src.database), Some(row.schema), None,
               JObject(map["engine" := JText(ENGINE), "relation_type" := JText(row.kind),
                           "last_altered" := if row.lastAltered.Some? then JInt(row.lastAltered.value) else JNull]),
               None, Some(now), columns)
  }

  function AssetsOf(src: DataSource, rows: seq<RelationRow>, columns: seq<ColumnRow>, now: int): seq<Discovered> {
    seq(|rows|,
        i requires 0 <= i < |rows| => AssetOf(src, rows[i], ColumnsOf(columns, rows[i].schema, rows[i].name), now))
  }

  function Latest(start: int, rows: seq<RelationRow>): int {
    if rows == [] then start
    else
      var before, altered := Latest(start, rows[..|rows| - 1]), rows[|rows| - 1].lastAltered;
      if altered.Some? && altered.value > before then altered.value else before
  }

  function Discovery(src: DataSource, mode: SyncMode, cursor: Cursor, now: int, snapshot: Snapshot): DiscoveryResult {
    var prior := ReadWatermark(cursor);
    var rows := Relations(src, snapshot.tables, Cutoff(mode, prior));
    DiscoveryResult(Containers(src, now) + AssetsOf(src, rows, snapshot.columns, now),
                    NextCursor(Latest(if prior.Some? then prior.value else now, rows)),
                    EffectiveMode(mode, prior), Cutoff(mode, prior))
  }

  // ---------------------------------------------------------------- the loops

  method DiscoverRelations(src: DataSource, tables: seq<RelationRow>, cutoff: Option<int>)
    returns (rows: seq<RelationRow>)
    ensures rows == Relations(src, tables, cutoff)
  {
    rows := [];
    for i := 0 to |tables|
      invariant rows == Relations(src, tables[..i], cutoff)
    {
      assert tables[..i + 1][..i] == tables[..i];
      if InScope(src, tables[i]) && Recent(tables[i], cutoff) { rows := rows + [tables[i]]; }
    }
    assert tables[..|tables|] == tables;
  }

  function Grouped(columns: map<(string, string), seq<Column>>, n: (string, string)): seq<Column> {
    if n in columns then columns[n] else []
  }

  lemma OneMoreColumn(rows: seq<ColumnRow>, i: nat, n: (string, string))
    requires i < |rows|
    ensures ColumnsOf(rows[..i + 1], n.0, n.1) ==
            if (rows[i].schema, rows[i].relation) == n then ColumnsOf(rows[..i], n.0, n.1) + [rows[i].column]
            else ColumnsOf(rows[..i], n.0, n.1)
  {
    assert rows[..i + 1][..i] == rows[..i] && rows[..i + 1][i] == rows[i];
  }

  /** One pass over all column rows of the schemas, grouped by the relations that were kept. */
  method DiscoverColumns(rows: seq<ColumnRow>, names: set<(string, string)>)
    returns (columns: map<(string, string), seq<Column>>)
    ensures columns.Keys <= names
    ensures forall n | n in names :: Grouped(columns, n) == ColumnsOf(rows, n.0, n.1)
  {
    hide ColumnsOf;
    columns := map[];
    NoColumns(rows);
    for i := 0 to |rows|
      invariant columns.Keys <= names
      invariant forall n | n in names :: Grouped(columns, n) == ColumnsOf(rows[..i], n.0, n.1)
    {
      ghost var before := columns;
      var key := (rows[i].schema, rows[i].relation);
      if key in names { columns := columns[key := Grouped(columns, key) + [rows[i].column]]; }
      forall n | n in names ensures Grouped(columns, n) == ColumnsOf(rows[..i + 1], n.0, n.1) {
        assert Grouped(before, n) == ColumnsOf(rows[..i], n.0, n.1);
        OneMoreColumn(rows, i, n);
      }
    }
    assert rows[..|rows|] == rows;
  }

  lemma NoColumns(rows: seq<ColumnRow>)
    ensures forall n: (string, string) :: ColumnsOf(rows[..0], n.0, n.1) == []
  {
  }

  lemma OneMoreAsset(src: DataSource, rows: seq<RelationRow>, columns: seq<ColumnRow>, now: int, i: nat)
    requires i < |rows|
    ensures AssetsOf(src, rows[..i + 1], columns, now) ==
            AssetsOf(src, rows[..i], columns, now) +
              [AssetOf(src, rows[i], ColumnsOf(columns, rows[i].schema, rows[i].name), now)]
  {
  }

  /** The relation loop: append each relation's asset and advance the watermark. */
  method Assemble(src: DataSource, rows: seq<RelationRow>, ghost all: seq<ColumnRow>,
                  columns: map<(string, string), seq<Column>>, start: int, now: int)
    returns (found: seq<Discovered>, latest: int)
    requires forall row | row in rows ::
      Grouped(columns, (row.schema, row.name)) == ColumnsOf(all, row.schema, row.name)
    ensures found == AssetsOf(src, rows, all, now) && latest == Latest(start, rows)
  {
    hide AssetOf, ColumnsOf, AssetsOf;
    found, latest := [], start;
    NoAssets(src, rows[..0], all, now);
    for i := 0 to |rows|
      invariant found == AssetsOf(src, rows[..i], all, now) && latest == Latest(start, rows[..i])
    {
      var row := rows[i];
      assert rows[..i + 1][..i] == rows[..i] && row in rows;
      if row.lastAltered.Some? && row.lastAltered.value > latest { latest := row.lastAltered.value; }
      var key := (row.schema, row.name);
      OneMoreAsset(src, rows, all, now, i);
      found := found + [AssetOf(src, row, if key in columns then columns[key] else [], now)];
    }
    assert rows[..|rows|] == rows;
  }

  lemma NoAssets(src: DataSource, rows: seq<RelationRow>, columns: seq<ColumnRow>, now: int)
    requires rows == []
    ensures AssetsOf(src, rows, columns, now) == []
  {
  }

  method Discover(src: DataSource, mode: SyncMode, cursor: Cursor, now: int, snapshot: Snapshot)
    returns (result: DiscoveryResult)
    ensures result == Discovery(src, mode, cursor, now, snapshot)
  {
    hide ReadWatermark, Containers, AssetOf, AssetsOf, NextCursor, ColumnsOf, Relations, Latest;
    var prior := ReadWatermark(cursor);
    var effective := if mode == Full || prior.None? then Full else Incremental;
    var cutoff := if effective == Incremental then Some(prior.value - WATERMARK_OVERLAP) else None;
    var rows := DiscoverRelations(src, snapshot.tables, cutoff);
    var names := set row | row in rows :: (row.schema, row.name);
    var columns := DiscoverColumns(snapshot.columns, names);
    forall row | row in rows
      ensures (if (row.schema, row.name) in columns then columns[(row.schema, row.name)] else []) ==
        ColumnsOf(snapshot.columns, row.schema, row.name)
    {
      var n := (row.schema, row.name);
      assert n in names && n.0 == row.schema && n.1 == row.name;
    }
    var found, latest := Assemble(src, rows, snapshot.columns, columns, if prior.Some? then prior.value else now, now);
    result := DiscoveryResult(Containers(src, now) + found, NextCursor(latest), effective, cutoff);
  }

  // ---------------------------------------------------------------- the watermark

  /** The watermark never moves back, and it is the latest alteration seen whenever one is later. */
  lemma {:induction false} LatestIsMaximum(start: int, rows: seq<RelationRow>)
    ensures Latest(start, rows) >= start
    ensures forall r | r in rows && r.lastAltered.Some? :: r.lastAltered.value <= Latest(start, rows)
    ensures Latest(start, rows) == start || exists r | r in rows :: r.lastAltered == Some(Latest(start, rows))
  {
    if rows != [] {
      LatestIsMaximum(start, rows[..|rows| - 1]);
      assert rows == rows[..|rows| - 1] + [rows[|rows| - 1]];
    }
  }

  /** Reading back a written cursor gives the watermark. */
  lemma CursorRoundTrip(watermark: int)
    ensures ReadWatermark(NextCursor(watermark)) == Some(watermark)
  {
  }

  /** An incremental pass leaves the same watermark as a full pass over the same snapshot. */
  lemma {:induction false} SkippedRowsDoNotMoveIt(src: DataSource, tables: seq<RelationRow>, prior: int)
    ensures Latest(prior, Relations(src, tables, Some(prior - WATERMARK_OVERLAP))) ==
      Latest(prior, Relations(src, tables, None))
  {
    if tables != [] {
      var p, row := tables[..|tables| - 1], tables[|tables| - 1];
      SkippedRowsDoNotMoveIt(src, p, prior);
      var some, all := Relations(src, p, Some(prior - WATERMARK_OVERLAP)), Relations(src, p, None);
      assert (some + [row])[..|some|] == some && (all + [row])[..|all|] == all && some + [] == some && all + [] == all;
      LatestIsMaximum(prior, all);
    }
  }
}
