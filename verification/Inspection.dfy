/**
 * The inspection's output: four lists and the rows share one byte budget, and the document says
 * how much of each was left out. The deadline expires after a given number of admission checks.
 */
module Inspection {
  import opened Prelude
  import opened InspectionDocument
  import opened InspectionAdmission

  /**
   * The document after each list, after the correction and after the rows, and for each item and
   * row in order whether it was admitted.
   */
  datatype Inspected = Inspected(
    withSchemas: Document, withSources: Document, withConflicts: Document, withFields: Document, corrected: Document,
    doc: Document, schemas: seq<bool>, sources: seq<bool>, typeConflicts: seq<bool>, projectedFields: seq<bool>,
    rows: seq<bool>)

  // --- one list inside the document --------------------------------------------------------------

  function SlotOf(doc: Document, category: Category): Slot {
    Slot(ListOf(doc.parts, category), OmittedOf(doc.parts, category), doc.omittedBytes)
  }

  function WithSlot(doc: Document, category: Category, slot: Slot): Document {
    doc.(parts := WithList(doc.parts, category, slot.items, slot.omitted), omittedBytes := slot.bytes)
  }

  lemma SlotRoundTrip(doc: Document, category: Category)
    ensures WithSlot(doc, category, SlotOf(doc, category)) == doc
  {
    match category
    case Schemas =>
    case Sources =>
    case TypeConflicts =>
    case ProjectedFields =>
  }

  function Around(measure: Document -> nat, doc: Document, category: Category): Slot -> nat {
    (slot: Slot) => measure(WithSlot(doc, category, slot))
  }

  function RowSlotOf(doc: Document): RowSlot {
    RowSlot(doc.parts.rows, doc.parts.sources, doc.parts.admittedRows, doc.parts.omittedRows, doc.omittedBytes)
  }

  function WithRowSlot(doc: Document, slot: RowSlot): Document {
    doc.(parts := doc.parts.(rows := slot.rows, sources := slot.sources, admittedRows := slot.admitted,
                             omittedRows := slot.omitted),
         omittedBytes := slot.bytes)
  }

  function AroundRows(measure: Document -> nat, doc: Document): RowSlot -> nat {
    (slot: RowSlot) => measure(WithRowSlot(doc, slot))
  }

  /** A measure of documents that a smaller count of omitted bytes does not raise. */
  ghost predicate Monotone(measure: Document -> nat) {
    forall doc: Document, bytes: nat :: bytes <= doc.omittedBytes ==>
      measure(Document(doc.meta, doc.parts, bytes)) <= measure(doc)
  }

  /** A list before its admission: nothing in it, everything counted as omitted. */
  predicate Untouched(doc: Document, category: Category, items: seq<Item>) {
    ListOf(doc.parts, category) == [] && OmittedOf(doc.parts, category) == |items|
  }

  /** Admission of one list within the document; what is not taken stays counted, to the byte. */
  method AdmitList(measure: Document -> nat, doc: Document, category: Category, items: seq<Item>, max: nat, ticks: nat)
    returns (doc': Document, flags: seq<bool>, ticks': nat)
    requires Untouched(doc, category, items) && Sum(ItemSizes(items)) <= doc.omittedBytes && measure(doc) <= max
    ensures |flags| == Min(ticks, |items|) && ticks' == ticks - |flags|
    ensures measure(doc') <= max
    ensures doc' == WithSlot(doc, category, Decided(SlotOf(doc, category), items, flags))
    ensures Greedy(SlotOf(doc, category), items, flags, Around(measure, doc, category), max)
    ensures ListOf(doc'.parts, category) == Taken(items, flags)
    ensures |flags| == |items| ==> OmittedOf(doc'.parts, category) == LeftCount(flags)
    ensures |flags| == |items| ==>
      doc'.omittedBytes == doc.omittedBytes - Sum(ItemSizes(items)) + LeftBytes(ItemSizes(items), flags)
  {
    SlotRoundTrip(doc, category);
    var slot;
    slot, flags, ticks' := Admit(SlotOf(doc, category), items, Around(measure, doc, category), max, ticks);
    doc' := WithSlot(doc, category, slot);
    TakenAndLeft(ItemSizes(items), flags);
    FullPrefix(ItemSizes(items));
  }

  // --- the rows ---------------------------------------------------------------------------------------

  /** The row says whether its schema is in the document. */
  function Annotated(rows: seq<Row>, schemas: seq<Item>): (annotated: seq<Row>)
    ensures |annotated| == |rows|
  {
    seq(|rows|, i requires 0 <= i < |rows| => rows[i].(available := HasSchema(schemas, rows[i].schema)))
  }

  predicate HasSchema(schemas: seq<Item>, schema: string) {
    exists i :: 0 <= i < |schemas| && schemas[i].key == schema
  }

  /** The rows as they are budgeted, before the admitted schemas are known. */
  function Budgeted(rows: seq<Row>): (budgeted: seq<Row>)
    ensures |budgeted| == |rows|
  {
    seq(|rows|, i requires 0 <= i < |rows| => rows[i].(available := false))
  }

  function AvailableRows(rows: seq<Row>): nat {
    if rows == [] then 0
    else AvailableRows(rows[..|rows| - 1]) + if rows[|rows| - 1].available then 1 else 0
  }

  /** "true" is one character shorter than "false": the correction counts the available rows. */
  lemma {:induction false} CorrectionIsAvailableRows(rows: seq<Row>, schemas: seq<Item>)
    ensures Sum(RowSizes(Budgeted(rows))) ==
            Sum(RowSizes(Annotated(rows, schemas))) + AvailableRows(Annotated(rows, schemas))
  {
    if rows != [] {
      var n := |rows| - 1;
      CorrectionIsAvailableRows(rows[..n], schemas);
      assert RowSizes(Budgeted(rows))[..n] == RowSizes(Budgeted(rows[..n]));
      assert RowSizes(Annotated(rows, schemas))[..n] == RowSizes(Annotated(rows[..n], schemas));
      assert Annotated(rows, schemas)[..n] == Annotated(rows[..n], schemas);
      var row := rows[n];
      var yes := row.(available := HasSchema(schemas, row.schema));
      assert RowSize(row.(available := false)) == RowSize(yes) + if yes.available then 1 else 0;
    }
  }

  /** The mid-way correction: the counter stays non-negative and the document no longer than it was. */
  method Correct(measure: Document -> nat, doc: Document, rows: seq<Row>, annotated: seq<Row>, max: nat)
    returns (doc': Document)
    requires annotated == Annotated(rows, doc.parts.schemas) && Monotone(measure)
    requires Sum(RowSizes(Budgeted(rows))) <= doc.omittedBytes && measure(doc) <= max
    ensures doc'.meta == doc.meta && doc'.parts == doc.parts
    ensures doc'.omittedBytes + AvailableRows(annotated) == doc.omittedBytes
    ensures measure(doc') <= max && Sum(RowSizes(annotated)) <= doc'.omittedBytes
    ensures doc.omittedBytes - Sum(RowSizes(Budgeted(rows))) == doc'.omittedBytes - Sum(RowSizes(annotated))
  {
    CorrectionIsAvailableRows(rows, doc.parts.schemas);
    var correction := Sum(RowSizes(Budgeted(rows))) - Sum(RowSizes(annotated));
    doc' := Document(doc.meta, doc.parts, doc.omittedBytes - correction);
  }

  method AdmitAllRows(measure: Document -> nat, doc: Document, rows: seq<Row>, max: nat, ticks: nat)
    returns (doc': Document, flags: seq<bool>, ticks': nat)
    requires RowsAdmissible(RowSlotOf(doc), rows, doc.meta.readRows) && measure(doc) <= max
    requires doc.parts.rows == [] && doc.parts.admittedRows == 0 && doc.meta.readRows == |rows|
    ensures |flags| == Min(ticks, |rows|) && ticks' == ticks - |flags|
    ensures measure(doc') <= max
    ensures doc' == WithRowSlot(doc, RowsDecided(RowSlotOf(doc), rows, flags, doc.meta.readRows))
    ensures RowsGreedy(RowSlotOf(doc), rows, flags, doc.meta.readRows, AroundRows(measure, doc), max)
    ensures doc'.parts.rows == Taken(rows, flags) && doc'.parts.admittedRows == |doc'.parts.rows|
    ensures |flags| == |rows| ==> doc'.parts.omittedRows == LeftCount(flags)
    ensures |flags| == |rows| ==>
      doc'.omittedBytes == doc.omittedBytes - Sum(RowSizes(rows)) + LeftBytes(RowSizes(rows), flags)
  {
    assert WithRowSlot(doc, RowSlotOf(doc)) == doc;
    var slot;
    slot, flags, ticks' := AdmitRows(RowSlotOf(doc), rows, doc.meta.readRows, AroundRows(measure, doc), max, ticks);
    doc' := WithRowSlot(doc, slot);
    TakenAndLeft(RowSizes(rows), flags);
    FullPrefix(RowSizes(rows));
  }

  // --- the whole output ---------------------------------------------------------------------------------

  /** Everything that may go into the document. */
  datatype Input = Input(
    meta: Meta, schemas: seq<Item>, sources: seq<Item>, typeConflicts: seq<Item>, projectedFields: seq<Item>,
    rows: seq<Row>)

  ghost predicate WellFormed(input: Input) {
    input.meta.readRows == |input.rows| && Counting(input.sources)
  }

  /** The sizes recorded before anything is admitted. */
  function ListBytes(input: Input): nat {
    Sum(ItemSizes(input.schemas)) + Sum(ItemSizes(input.sources)) + Sum(ItemSizes(input.typeConflicts))
    + Sum(ItemSizes(input.projectedFields))
  }

  /** The document before admission: empty lists, everything counted as omitted. */
  function Empty(input: Input): Document {
    Document(
      input.meta,
      Parts([], [], [], [], [], 0, |input.rows|,
            |input.schemas|, |input.sources|, |input.typeConflicts|, |input.projectedFields|),
      ListBytes(input) + Sum(RowSizes(Budgeted(input.rows))))
  }

  /** The number of looks at the clock: before admission, at each item and row, and at the end. */
  function Checks(input: Input): nat {
    |input.schemas| + |input.sources| + |input.typeConflicts| + |input.projectedFields| + |input.rows| + 2
  }

  /** One list of the result: what was taken, and how many items were not. */
  ghost predicate ListAccounted(doc: Document, category: Category, items: seq<Item>, flags: seq<bool>) {
    && |flags| == |items|
    && ListOf(doc.parts, category) == Taken(items, flags)
    && OmittedOf(doc.parts, category) == LeftCount(flags)
  }

  /** The sources taken, each with its own number of admitted rows. */
  ghost predicate SourcesAccounted(doc: Document, input: Input, flags: seq<bool>, rowFlags: seq<bool>) {
    && |flags| == |input.sources| && |rowFlags| == |input.rows|
    && doc.parts.omittedSources == LeftCount(flags)
    && Counting(Taken(input.sources, flags))
    && doc.parts.sources
       == CountRows(Taken(input.sources, flags), Annotated(input.rows, doc.parts.schemas), rowFlags)
  }

  ghost predicate RowsAccounted(doc: Document, input: Input, flags: seq<bool>) {
    && |flags| == |input.rows|
    && doc.parts.rows == Taken(Annotated(input.rows, doc.parts.schemas), flags)
    && doc.parts.admittedRows == |doc.parts.rows| && doc.parts.omittedRows == LeftCount(flags)
  }

  // --- the lists, place by place ----------------------------------------------------------------------

  /** `at` are the places whose flag is set, in order. */
  ghost predicate PlacesOf(flags: seq<bool>, at: seq<nat>) {
    && (forall i, j :: 0 <= i < j < |at| ==> at[i] < at[j])
    && (forall k :: k in at <==> 0 <= k < |flags| && flags[k])
  }

  /** Exactly the items whose flag is set, in the order they came. */
  ghost predicate TookItems(list: seq<Item>, items: seq<Item>, flags: seq<bool>) {
    exists at :: PlacesOf(flags, at) && Picked(list, items, at)
  }

  /** Likewise the sources, each with one more for every row of its own that was taken. */
  ghost predicate TookSources(doc: Document, input: Input, flags: seq<bool>, rowFlags: seq<bool>) {
    exists at, taken :: PlacesOf(flags, at) && Picked(taken, input.sources, at)
      && CountsRows(doc.parts.sources, taken, input.rows, rowFlags)
  }

  /** A taken row counts for the last source with its id. */
  ghost predicate CountsRows(sources: seq<Item>, taken: seq<Item>, rows: seq<Row>, flags: seq<bool>) {
    && |sources| == |taken| && |flags| <= |rows| && Counting(taken)
    && forall i :: 0 <= i < |taken| ==>
         sources[i] == taken[i].(counter := Some(taken[i].counter.value + |RowsOf(taken, rows, flags, i)|))
  }

  /** Likewise the rows, each telling whether a schema of its own is in the document. */
  ghost predicate TookRows(doc: Document, input: Input, flags: seq<bool>) {
    exists at :: PlacesOf(flags, at) && RowsTell(doc.parts.rows, input.rows, at, doc.parts.schemas)
  }

  ghost predicate RowsTell(list: seq<Row>, rows: seq<Row>, at: seq<nat>, schemas: seq<Item>) {
    && |list| == |at|
    && forall i :: 0 <= i < |at| ==> at[i] < |rows| && RowTells(list[i], rows[at[i]], schemas)
  }

  ghost predicate RowTells(told: Row, row: Row, schemas: seq<Item>) {
    && told == row.(available := told.available)
    && (told.available <==> exists s :: 0 <= s < |schemas| && schemas[s].key == row.schema)
  }

  ghost predicate TookAll(result: Inspected, input: Input) {
    && TookItems(result.doc.parts.schemas, input.schemas, result.schemas)
    && TookItems(result.doc.parts.typeConflicts, input.typeConflicts, result.typeConflicts)
    && TookItems(result.doc.parts.projectedFields, input.projectedFields, result.projectedFields)
    && TookSources(result.doc, input, result.sources, result.rows)
    && TookRows(result.doc, input, result.rows)
  }

  lemma PlacesAre(flags: seq<bool>, items: seq<Item>)
    requires |flags| <= |items|
    ensures PlacesOf(flags, Places(flags))
  {
    TakenInOrder(items, flags);
    forall k: int ensures k in Places(flags) <==> 0 <= k < |flags| && flags[k] {
      if k >= 0 {
        PlacesAreSet(flags, k);
      }
    }
  }

  lemma ItemsAreTaken(items: seq<Item>, flags: seq<bool>)
    requires |flags| == |items|
    ensures PlacesOf(flags, Places(flags)) && Picked(Taken(items, flags), items, Places(flags))
    ensures TookItems(Taken(items, flags), items, flags)
  {
    PlacesAre(flags, items);
    TakenInOrder(items, flags);
    FullPrefix(items);
  }

  lemma SourcesAreTaken(doc: Document, input: Input, flags: seq<bool>, rowFlags: seq<bool>)
    requires SourcesAccounted(doc, input, flags, rowFlags)
    ensures TookSources(doc, input, flags, rowFlags)
  {
    var taken := Taken(input.sources, flags);
    var annotated := Annotated(input.rows, doc.parts.schemas);
    ItemsAreTaken(input.sources, flags);
    forall i | 0 <= i < |taken|
      ensures doc.parts.sources[i] ==
        taken[i].(counter := Some(taken[i].counter.value + |RowsOf(taken, input.rows, rowFlags, i)|))
    {
      TakenOfCounts(taken, annotated, rowFlags, i);
      assert RowsOf(taken, annotated, rowFlags, i) == RowsOf(taken, input.rows, rowFlags, i);
    }
    assert CountsRows(doc.parts.sources, taken, input.rows, rowFlags);
  }

  lemma RowsAreTaken(doc: Document, input: Input, flags: seq<bool>)
    requires RowsAccounted(doc, input, flags)
    ensures TookRows(doc, input, flags)
  {
    var annotated := Annotated(input.rows, doc.parts.schemas);
    var at := Places(flags);
    TakenInOrder(annotated, flags);
    FullPrefix(annotated);
    forall k: int ensures k in at <==> 0 <= k < |flags| && flags[k] {
      if k >= 0 {
        PlacesAreSet(flags, k);
      }
    }
    assert PlacesOf(flags, at);
    forall i | 0 <= i < |at| ensures RowTells(doc.parts.rows[i], input.rows[at[i]], doc.parts.schemas) {
      assert doc.parts.rows[i] == annotated[at[i]];
    }
    assert RowsTell(doc.parts.rows, input.rows, at, doc.parts.schemas);
  }

  lemma AllAreTaken(result: Inspected, input: Input)
    requires Conserves(result, input)
    ensures TookAll(result, input)
  {
    ItemsAreTaken(input.schemas, result.schemas);
    ItemsAreTaken(input.typeConflicts, result.typeConflicts);
    ItemsAreTaken(input.projectedFields, result.projectedFields);
    SourcesAreTaken(result.doc, input, result.sources, result.rows);
    RowsAreTaken(result.doc, input, result.rows);
  }

  /** Conservation: admitted and omitted add up everywhere, and the omitted bytes are those of what is missing. */
  ghost predicate Conserves(result: Inspected, input: Input) {
    && ListAccounted(result.doc, Schemas, input.schemas, result.schemas)
    && ListAccounted(result.doc, TypeConflicts, input.typeConflicts, result.typeConflicts)
    && ListAccounted(result.doc, ProjectedFields, input.projectedFields, result.projectedFields)
    && SourcesAccounted(result.doc, input, result.sources, result.rows)
    && RowsAccounted(result.doc, input, result.rows)
    && result.doc.omittedBytes
       == LeftBytes(ItemSizes(input.schemas), result.schemas) + LeftBytes(ItemSizes(input.sources), result.sources)
        + LeftBytes(ItemSizes(input.typeConflicts), result.typeConflicts)
        + LeftBytes(ItemSizes(input.projectedFields), result.projectedFields)
        + LeftBytes(RowSizes(Annotated(input.rows, result.doc.parts.schemas)), result.rows)
  }

  /** The four lists have been dealt with, the rows not yet. */
  ghost predicate ListsDone(result: Inspected, input: Input) {
    var doc := result.doc;
    && ListAccounted(doc, Schemas, input.schemas, result.schemas)
    && ListAccounted(doc, Sources, input.sources, result.sources)
    && ListAccounted(doc, TypeConflicts, input.typeConflicts, result.typeConflicts)
    && ListAccounted(doc, ProjectedFields, input.projectedFields, result.projectedFields)
    && doc.meta == input.meta
    && doc.parts.rows == [] && doc.parts.admittedRows == 0 && doc.parts.omittedRows == |input.rows|
    && doc.omittedBytes
       == LeftBytes(ItemSizes(input.schemas), result.schemas) + LeftBytes(ItemSizes(input.sources), result.sources)
        + LeftBytes(ItemSizes(input.typeConflicts), result.typeConflicts)
        + LeftBytes(ItemSizes(input.projectedFields), result.projectedFields)
        + Sum(RowSizes(Budgeted(input.rows)))
  }

  /** One list was admitted greedily, each item exactly when the whole document still fitted with it. */
  ghost predicate GreedyList(measure: Document -> nat, doc: Document, doc': Document, category: Category,
        items: seq<Item>, flags: seq<bool>, max: nat)
  {
    && |flags| == |items| && Admissible(SlotOf(doc, category), items)
    && doc' == WithSlot(doc, category, Decided(SlotOf(doc, category), items, flags))
    && Greedy(SlotOf(doc, category), items, flags, Around(measure, doc, category), max)
  }

  predicate SameList(a: Document, b: Document, category: Category) {
    ListOf(a.parts, category) == ListOf(b.parts, category)
    && OmittedOf(a.parts, category) == OmittedOf(b.parts, category)
  }

  predicate SameRows(a: Document, b: Document) {
    && a.meta == b.meta && a.parts.rows == b.parts.rows
    && a.parts.admittedRows == b.parts.admittedRows && a.parts.omittedRows == b.parts.omittedRows
  }

  /** One list up to the deadline. */
  method AdmitWhole(measure: Document -> nat, doc: Document, category: Category, items: seq<Item>, max: nat, ticks: nat)
    returns (doc': Document, flags: seq<bool>, ticks': nat, done: bool)
    requires Untouched(doc, category, items) && Sum(ItemSizes(items)) <= doc.omittedBytes && measure(doc) <= max
    ensures done <==> ticks >= |items|
    ensures done ==> ticks' == ticks - |items| && measure(doc') <= max
    ensures done ==> ListAccounted(doc', category, items, flags) && SameRows(doc, doc')
    ensures done ==> forall c :: c != category ==> SameList(doc, doc', c)
    ensures done ==>
      doc'.omittedBytes == doc.omittedBytes - Sum(ItemSizes(items)) + LeftBytes(ItemSizes(items), flags)
    ensures done ==> GreedyList(measure, doc, doc', category, items, flags, max)
  {
    doc', flags, ticks' := AdmitList(measure, doc, category, items, max, ticks);
    done := |flags| == |items|;
  }

  /** The four lists were admitted one after the other. */
  ghost predicate GreedyLists(measure: Document -> nat, result: Inspected, input: Input, max: nat) {
    && GreedyList(measure, Empty(input), result.withSchemas, Schemas, input.schemas, result.schemas, max)
    && GreedyList(measure, result.withSchemas, result.withSources, Sources, input.sources, result.sources, max)
    && GreedyList(measure, result.withSources, result.withConflicts, TypeConflicts, input.typeConflicts,
                  result.typeConflicts, max)
    && GreedyList(measure, result.withConflicts, result.withFields, ProjectedFields, input.projectedFields,
                  result.projectedFields, max)
  }

  /** Two lists, one after the other. */
  method AdmitTwo(measure: Document -> nat, d0: Document, first: Category, items: seq<Item>, second: Category,
        more: seq<Item>, rest: nat, max: nat, ticks: nat)
    returns (d1: Document, d2: Document, flags: seq<bool>, flags': seq<bool>, ticks': nat, done: bool)
    requires first != second && Untouched(d0, first, items) && Untouched(d0, second, more) && measure(d0) <= max
    requires d0.omittedBytes == Sum(ItemSizes(items)) + Sum(ItemSizes(more)) + rest
    ensures done <==> ticks >= |items| + |more|
    ensures done ==> ticks' == ticks - |items| - |more| && measure(d2) <= max
    ensures done ==> ListAccounted(d2, first, items, flags) && ListAccounted(d2, second, more, flags')
    ensures done ==> d2.omittedBytes == LeftBytes(ItemSizes(items), flags) + LeftBytes(ItemSizes(more), flags') + rest
    ensures done ==> GreedyList(measure, d0, d1, first, items, flags, max)
    ensures done ==> GreedyList(measure, d1, d2, second, more, flags', max)
    ensures done ==> forall c :: c != first && c != second ==> SameList(d0, d2, c)
    ensures done ==> SameRows(d0, d2)
  {
    d1, flags, ticks', done := AdmitWhole(measure, d0, first, items, max, ticks);
    if done {
      d2, flags', ticks', done := AdmitWhole(measure, d1, second, more, max, ticks');
    } else {
      d2, flags' := d1, [];
    }
  }

  method AdmitLists(measure: Document -> nat, input: Input, max: nat, ticks: nat)
    returns (r: Option<Inspected>, ticks': nat)
    requires WellFormed(input) && measure(Empty(input)) <= max
    ensures r.Some? <==> ticks + |input.rows| + 2 >= Checks(input)
    ensures r.Some? ==> ticks' == ticks + |input.rows| + 2 - Checks(input)
    ensures r.Some? ==> ListsDone(r.value, input) && measure(r.value.doc) <= max
    ensures r.Some? ==> GreedyLists(measure, r.value, input, max) && r.value.withFields == r.value.doc
  {
    var d0 := Empty(input);
    var d1, d2, schemas, sources, left, done := AdmitTwo(measure, d0, Schemas, input.schemas, Sources, input.sources,
      Sum(ItemSizes(input.typeConflicts)) + Sum(ItemSizes(input.projectedFields)) + Sum(RowSizes(Budgeted(input.rows))),
      max, ticks);
    if !done {
      return None, left;
    }
    var d3, d4, conflicts, fields, left', done' := AdmitTwo(measure, d2, TypeConflicts, input.typeConflicts,
      ProjectedFields, input.projectedFields,
      LeftBytes(ItemSizes(input.schemas), schemas) + LeftBytes(ItemSizes(input.sources), sources)
      + Sum(RowSizes(Budgeted(input.rows))),
      max, left);
    if !done' {
      return None, left';
    }
    return Some(Inspected(d1, d2, d3, d4, d4, d4, schemas, sources, conflicts, fields, [])), left';
  }

  lemma {:induction false} TakenStillCount(sources: seq<Item>, flags: seq<bool>)
    requires |flags| <= |sources| && Counting(sources)
    ensures Counting(Taken(sources, flags))
  {
    if flags != [] {
      TakenStillCount(sources, flags[..|flags| - 1]);
    }
  }

  /** The rows were admitted greedily into the corrected document. */
  ghost predicate GreedyRows(measure: Document -> nat, result: Inspected, input: Input, max: nat) {
    var annotated := Annotated(input.rows, result.withFields.parts.schemas);
    var slot := RowSlotOf(result.corrected);
    && |result.rows| == |annotated| && RowsAdmissible(slot, annotated, input.meta.readRows)
    && result.corrected.parts == result.withFields.parts
    && result.corrected.omittedBytes + AvailableRows(annotated) == result.withFields.omittedBytes
    && result.doc == WithRowSlot(result.corrected, RowsDecided(slot, annotated, result.rows, input.meta.readRows))
    && RowsGreedy(slot, annotated, result.rows, input.meta.readRows, AroundRows(measure, result.corrected), max)
  }

  /** What the rows added to the lists. */
  ghost predicate RowsAdded(lists: Inspected, result: Inspected, input: Input) {
    var annotated := Annotated(input.rows, lists.doc.parts.schemas);
    && |result.rows| == |input.rows|
    && result.doc.parts == lists.doc.parts.(rows := result.doc.parts.rows, sources := result.doc.parts.sources,
         admittedRows := result.doc.parts.admittedRows, omittedRows := result.doc.parts.omittedRows)
    && result.doc.parts.rows == Taken(annotated, result.rows)
    && result.doc.parts.admittedRows == |result.doc.parts.rows|
    && result.doc.parts.omittedRows == LeftCount(result.rows)
    && result.doc.omittedBytes + Sum(RowSizes(Budgeted(input.rows)))
       == lists.doc.omittedBytes + LeftBytes(RowSizes(annotated), result.rows)
    && Counting(lists.doc.parts.sources)
    && result.doc.parts.sources == CountRows(lists.doc.parts.sources, annotated, result.rows)
  }

  lemma RowsDecidedAdd(lists: Inspected, corrected: Document, doc: Document, flags: seq<bool>, input: Input)
    requires WellFormed(input) && |flags| == |input.rows| && corrected.parts == lists.doc.parts
    requires corrected.meta == input.meta && lists.doc.parts.rows == [] && lists.doc.parts.admittedRows == 0
    requires var annotated := Annotated(input.rows, lists.doc.parts.schemas);
      && RowsAdmissible(RowSlotOf(corrected), annotated, input.meta.readRows)
      && doc == WithRowSlot(corrected, RowsDecided(RowSlotOf(corrected), annotated, flags, input.meta.readRows))
      && lists.doc.omittedBytes - Sum(RowSizes(Budgeted(input.rows))) ==
         corrected.omittedBytes - Sum(RowSizes(annotated))
      && doc.parts.rows == Taken(annotated, flags) && doc.parts.omittedRows == LeftCount(flags)
      && doc.omittedBytes == corrected.omittedBytes - Sum(RowSizes(annotated)) + LeftBytes(RowSizes(annotated), flags)
    ensures RowsAdded(lists, lists.(corrected := corrected, doc := doc, rows := flags), input)
  {
  }

  /** Correction and rows, once the lists are done. */
  method AdmitTheRows(measure: Document -> nat, lists: Inspected, input: Input, max: nat, ticks: nat)
    returns (r: Option<Inspected>, ticks': nat)
    requires WellFormed(input) && Monotone(measure)
    requires ListsDone(lists, input) && lists.withFields == lists.doc && measure(lists.doc) <= max
    ensures r.Some? <==> ticks >= |input.rows|
    ensures r.Some? ==> ticks' == ticks - |input.rows|
    ensures r.Some? ==> r.value == lists.(corrected := r.value.corrected, doc := r.value.doc, rows := r.value.rows)
    ensures r.Some? ==> measure(r.value.doc) <= max && GreedyRows(measure, r.value, input, max)
    ensures r.Some? ==> RowsAdded(lists, r.value, input)
  {
    var annotated := Annotated(input.rows, lists.doc.parts.schemas);
    var corrected := Correct(measure, lists.doc, input.rows, annotated, max);
    TakenStillCount(input.sources, lists.sources);
    var doc, flags;
    doc, flags, ticks' := AdmitAllRows(measure, corrected, annotated, max, ticks);
    if |flags| < |input.rows| {
      return None, ticks';
    }
    RowsDecidedAdd(lists, corrected, doc, flags, input);
    return Some(lists.(corrected := corrected, doc := doc, rows := flags)), ticks';
  }

  lemma ListsAndRowsConserve(lists: Inspected, result: Inspected, input: Input)
    requires ListsDone(lists, input) && RowsAdded(lists, result, input) && |result.rows| == |input.rows|
    requires result == lists.(corrected := result.corrected, doc := result.doc, rows := result.rows)
    ensures Conserves(result, input)
  {
  }

  /**
   * The inspection output. It is produced exactly when the limit is in range and fits the metadata
   * and the deadline lasts; then it is within the limit, accounts for everything it was given, and
   * left out only what did not fit at its turn.
   */
  method Inspect(measure: Document -> nat, input: Input, max: nat, ticks: nat)
    returns (r: Result<Inspected, InspectionError>)
    requires WellFormed(input) && Monotone(measure)
    ensures r.Ok? ==> measure(r.value.doc) <= max && Conserves(r.value, input) && TookAll(r.value, input)
    ensures r.Ok? ==> GreedyLists(measure, r.value, input, max) && GreedyRows(measure, r.value, input, max)
    ensures r == Err(InvalidLimit) <==> !(OUTPUT_MINIMUM <= max <= OUTPUT_LIMIT)
    ensures r == Err(TooSmall) <==> OUTPUT_MINIMUM <= max <= OUTPUT_LIMIT && ticks > 0 && measure(Empty(input)) > max
    ensures r.Ok? <==> OUTPUT_MINIMUM <= max <= OUTPUT_LIMIT && measure(Empty(input)) <= max && ticks >= Checks(input)
  {
    if max < OUTPUT_MINIMUM || max > OUTPUT_LIMIT {
      return Err(InvalidLimit);
    }
    if ticks == 0 {
      return Err(Expired);
    }
    if measure(Empty(input)) > max {
      return Err(TooSmall);
    }
    var lists, left := AdmitLists(measure, input, max, ticks - 1);
    if lists.None? {
      return Err(Expired);
    }
    var all;
    all, left := AdmitTheRows(measure, lists.value, input, max, left);
    if all.None? || left == 0 {
      return Err(Expired);
    }
    ListsAndRowsConserve(lists.value, all.value, input);
    AllAreTaken(all.value, input);
    return Ok(all.value);
  }

  /** The measure the program uses: the length of the encoded text. */
  method InspectText(input: Input, max: nat, ticks: nat) returns (r: Result<Inspected, InspectionError>)
    requires WellFormed(input)
    ensures r.Ok? ==> |Text(r.value.doc)| <= max && Conserves(r.value, input) && TookAll(r.value, input)
    ensures r.Ok? ==> GreedyLists(Length, r.value, input, max) && GreedyRows(Length, r.value, input, max)
    ensures r.Ok? <==>
      OUTPUT_MINIMUM <= max <= OUTPUT_LIMIT && |Text(Empty(input))| <= max && ticks >= Checks(input)
  {
    LengthIsMonotone();
    r := Inspect(Length, input, max, ticks);
  }

  lemma LengthIsMonotone()
    ensures Monotone(Length)
  {
    forall doc: Document, bytes: nat | bytes <= doc.omittedBytes
      ensures Length(Document(doc.meta, doc.parts, bytes)) <= Length(doc)
    {
      FewerOmittedBytesNoLonger(doc, bytes);
      assert doc.(omittedBytes := bytes) == Document(doc.meta, doc.parts, bytes);
    }
  }
}
