/**
 * The inspection document as text. Items arrive already encoded; the counters are part of the
 * measured text, so admitting an item changes the length twice over.
 */
module InspectionDocument {
  import opened Prelude

  datatype Category = Schemas | Sources | TypeConflicts | ProjectedFields

  /** An encoded item; a source also carries its own count of admitted rows inside its text. */
  datatype Item = Item(key: string, before: string, counter: Option<nat>, after: string)

  /** An encoded row up to and after the value of `schema_available`. */
  datatype Row = Row(source: string, schema: string, before: string, available: bool, after: string)

  /** The part of the document nothing here changes. */
  datatype Meta = Meta(head: string, requestedRows: nat, availableRows: nat, readRows: nat, omittedFields: nat)

  datatype Parts = Parts(
    schemas: seq<Item>,
    sources: seq<Item>,
    typeConflicts: seq<Item>,
    projectedFields: seq<Item>,
    rows: seq<Row>,
    admittedRows: nat,
    omittedRows: nat,
    omittedSchemas: nat,
    omittedSources: nat,
    omittedTypeConflicts: nat,
    omittedProjectedFields: nat)

  datatype Document = Document(meta: Meta, parts: Parts, omittedBytes: nat)

  // --- text ---------------------------------------------------------------------------------------

  function Decimal(n: nat): string {
    if n < 10 then [(48 + n) as char] else Decimal(n / 10) + [(48 + n % 10) as char]
  }

  /** A smaller number is never longer. */
  lemma {:induction false} DecimalMonotone(m: nat, n: nat)
    requires m <= n
    ensures |Decimal(m)| <= |Decimal(n)|
  {
    if m >= 10 {
      DecimalMonotone(m / 10, n / 10);
    }
  }

  function ItemText(item: Item): string {
    item.before + (if item.counter.Some? then Decimal(item.counter.value) else "") + item.after
  }

  function RowText(row: Row): string {
    row.before + (if row.available then "true" else "false") + row.after
  }

  function ItemSize(item: Item): nat {
    |ItemText(item)|
  }

  function RowSize(row: Row): nat {
    |RowText(row)|
  }

  function Joined(texts: seq<string>): string {
    if texts == [] then ""
    else if |texts| == 1 then texts[0]
    else Joined(texts[..|texts| - 1]) + "," + texts[|texts| - 1]
  }

  function ItemsText(items: seq<Item>): string {
    "[" + Joined(seq(|items|, i requires 0 <= i < |items| => ItemText(items[i]))) + "]"
  }

  function RowsText(rows: seq<Row>): string {
    "[" + Joined(seq(|rows|, i requires 0 <= i < |rows| => RowText(rows[i]))) + "]"
  }

  function TextBefore(meta: Meta, parts: Parts): string {
    meta.head + ",\"schemas\":" + ItemsText(parts.schemas) + ",\"sources\":" + ItemsText(parts.sources)
    + ",\"rows\":" + RowsText(parts.rows) + ",\"coverage\":{\"requested_rows\":" + Decimal(meta.requestedRows)
    + ",\"available_rows\":" + Decimal(meta.availableRows) + ",\"read_rows\":" + Decimal(meta.readRows)
    + ",\"admitted_rows\":" + Decimal(parts.admittedRows) + ",\"omitted_rows\":" + Decimal(parts.omittedRows)
    + ",\"omitted_serialized_bytes\":"
  }

  function TextAfter(meta: Meta, parts: Parts): string {
    ",\"omitted_schemas\":" + Decimal(parts.omittedSchemas) + ",\"omitted_sources\":" + Decimal(parts.omittedSources)
    + ",\"omitted_type_conflicts\":" + Decimal(parts.omittedTypeConflicts)
    + ",\"omitted_projected_fields\":" + Decimal(parts.omittedProjectedFields)
    + ",\"projected_fields\":" + ItemsText(parts.projectedFields) + ",\"omitted_fields\":" + Decimal(meta.omittedFields)
    + ",\"type_conflicts\":" + ItemsText(parts.typeConflicts) + "}}"
  }

  /** The text the byte limit is about. */
  function Text(doc: Document): string {
    TextBefore(doc.meta, doc.parts) + Decimal(doc.omittedBytes) + TextAfter(doc.meta, doc.parts)
  }

  function Length(doc: Document): nat {
    |Text(doc)|
  }

  /** Taking bytes off the omitted ones never lengthens the document. */
  lemma FewerOmittedBytesNoLonger(doc: Document, bytes: nat)
    requires bytes <= doc.omittedBytes
    ensures Length(doc.(omittedBytes := bytes)) <= Length(doc)
  {
    DecimalMonotone(bytes, doc.omittedBytes);
  }

  // --- lists and counters ---------------------------------------------------------------------------

  function ListOf(parts: Parts, category: Category): seq<Item> {
    match category
    case Schemas => parts.schemas
    case Sources => parts.sources
    case TypeConflicts => parts.typeConflicts
    case ProjectedFields => parts.projectedFields
  }

  function OmittedOf(parts: Parts, category: Category): nat {
    match category
    case Schemas => parts.omittedSchemas
    case Sources => parts.omittedSources
    case TypeConflicts => parts.omittedTypeConflicts
    case ProjectedFields => parts.omittedProjectedFields
  }

  function WithList(parts: Parts, category: Category, items: seq<Item>, omitted: nat): (next: Parts)
    ensures ListOf(next, category) == items && OmittedOf(next, category) == omitted
    ensures next.rows == parts.rows && next.admittedRows == parts.admittedRows && next.omittedRows == parts.omittedRows
    ensures forall other :: other != category ==>
      ListOf(next, other) == ListOf(parts, other) && OmittedOf(next, other) == OmittedOf(parts, other)
  {
    match category
    case Schemas => parts.(schemas := items, omittedSchemas := omitted)
    case Sources => parts.(sources := items, omittedSources := omitted)
    case TypeConflicts => parts.(typeConflicts := items, omittedTypeConflicts := omitted)
    case ProjectedFields => parts.(projectedFields := items, omittedProjectedFields := omitted)
  }
}
