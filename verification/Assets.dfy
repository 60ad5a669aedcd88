/** The catalog's asset row, its technical and curated halves and its version history, after
    apps/catalog-api/app/models/catalog.py. An asset is identified by its unique key
    (source, asset type, qualified name). */
module Assets {
  import opened Values
  import opened Columns

  datatype AssetType = Database | Schema | Table | View

  datatype Key = Key(source: string, assetType: AssetType, qualifiedName: string)

  /** The fields that discovery owns. */
  datatype Field =
    | AssetTypeField | QualifiedName | Name | DatabaseName | SchemaName
    | TechnicalDescription | TechnicalMetadata | RowCount

  const FIELDS: seq<Field> :=
    [AssetTypeField, QualifiedName, Name, DatabaseName, SchemaName, TechnicalDescription, TechnicalMetadata, RowCount]

  datatype Technical = Technical(
    assetType: Json, qualifiedName: Json, name: Json, databaseName: Json,
    schemaName: Json, description: Json, metadata: Json, rowCount: Json)
  {
    function Get(f: Field): Json {
      match f
      case AssetTypeField => assetType
      case QualifiedName => qualifiedName
      case Name => name
      case DatabaseName => databaseName
      case SchemaName => schemaName
      case TechnicalDescription => description
      case TechnicalMetadata => metadata
      case RowCount => rowCount
    }

    function Set(f: Field, v: Json): Technical {
      match f
      case AssetTypeField => this.(assetType := v)
      case QualifiedName => this.(qualifiedName := v)
      case Name => this.(name := v)
      case DatabaseName => this.(databaseName := v)
      case SchemaName => this.(schemaName := v)
      case TechnicalDescription => this.(description := v)
      case TechnicalMetadata => this.(metadata := v)
      case RowCount => this.(rowCount := v)
    }
  }

  /** The fields that stewards own. */
  datatype CuratedField = Description | Tags | Owner | Classification | DomainId | Lifecycle

  type Curated = map<CuratedField, Json>

  const NO_CURATION: Curated :=
    map[Description := JNull, Tags := JList([]), Owner := JNull, Classification := JNull,
        DomainId := JNull, Lifecycle := JText("under_review")]

  datatype Change = Change(before: Json, after: Json)

  /** One `AssetMetadataVersion`: the two discovery shapes and the two curation shapes. */
  datatype Version =
    | Created(fields: Technical)
    | Rediscovered(changes: map<Field, Change>, columns: Changes)
    | Curation(edits: map<CuratedField, Change>, actor: string)
    | ProposalApplied(before: Curated, after: Curated, proposal: nat, actor: string)
  {
    predicate FromDiscovery() { Created? || Rediscovered? }
  }

  datatype Asset = Asset(
    tenant: string,
    technical: Technical, columns: seq<Column>, version: nat,
    discoveredAt: int, freshnessAt: int,
    curated: Curated, curatedAt: Option<int>, explainableAt: Option<int>,
    history: seq<Version>)

  datatype Discovered = Discovered(
    assetType: AssetType, qualifiedName: string, name: string,
    databaseName: Option<string>, schemaName: Option<string>, description: Option<string>,
    metadata: Json, rowCount: Option<int>, freshnessAt: Option<int>, columns: seq<Column>)

  function OptText(o: Option<string>): Json { if o.Some? then JText(o.value) else JNull }

  function TypeName(t: AssetType): string {
    match t
    case Database => "database"
    case Schema => "schema"
    case Table => "table"
    case View => "view"
  }

  function Fields(d: Discovered): Technical {
    Technical(JText(TypeName(d.assetType)), JText(d.qualifiedName), JText(d.name), OptText(d.databaseName),
              OptText(d.schemaName), OptText(d.description), d.metadata,
              if d.rowCount.Some? then JInt(d.rowCount.value) else JNull)
  }

  function KeyOf(source: string, d: Discovered): Key { Key(source, d.assetType, d.qualifiedName) }
}
