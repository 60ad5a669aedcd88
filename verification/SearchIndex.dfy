/** The persistent search document of an asset, after apps/catalog-api/app/services/search_index_service.py. */
module SearchIndex {
  import opened Values
  import opened Columns
  import opened Assets

  datatype Facets = Facets(
    assetType: Json, lifecycle: Json, owner: Json, classification: Json, domainId: Json, tags: Json, explainable: bool)

  datatype Document = Document(text: string, facets: Facets)

  function LowerChar(c: char): char { if 'A' <= c <= 'Z' then (c as int + 32) as char else c }

  function Lower(s: string): string { seq(|s|, i requires 0 <= i < |s| => LowerChar(s[i])) }

  /** `value or ""` for a text column. */
  function TextOf(v: Json): string { if v.JText? then v.text else "" }

  function Join(parts: seq<string>): string {
    if parts == [] then "" else if |parts| == 1 then parts[0] else parts[0] + " " + Join(parts[1..])
  }

  function TagTexts(v: Json): seq<string> {
    if v.JList? then seq(|v.items|, i requires 0 <= i < |v.items| => TextOf(v.items[i])) else []
  }

  function CuratedValue(c: Curated, f: CuratedField): Json { if f in c then c[f] else JNull }

  function CuratedOf(a: Asset, f: CuratedField): Json { CuratedValue(a.curated, f) }

  function ColumnNames(columns: seq<Column>): seq<string> {
    seq(|columns|, i requires 0 <= i < |columns| => columns[i].name)
  }

  function Parts(a: Asset): seq<string> {
    [TextOf(a.technical.name), TextOf(a.technical.qualifiedName), TextOf(CuratedOf(a, Description)),
     TextOf(a.technical.description), TextOf(CuratedOf(a, Owner)), TextOf(CuratedOf(a, Classification)),
     Join(TagTexts(CuratedOf(a, Tags))),
     Join(ColumnNames(a.columns))]
  }

  function DocumentOf(a: Asset): Document {
    Document(
      Lower(Join(Parts(a))),
      Facets(a.technical.assetType, CuratedOf(a, Lifecycle), CuratedOf(a, Owner), CuratedOf(a, Classification),
             CuratedOf(a, DomainId), JList(if CuratedOf(a, Tags).JList? then CuratedOf(a, Tags).items else []),
             a.explainableAt.Some?))
  }
}
