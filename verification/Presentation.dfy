/**
 * The published command results: one publication per view and command step, each within its
 * own byte and record limit and all together within the workspace limit.
 */
module Presentation {
  import opened Prelude
  import PrefixEncoding

  type View = string
  type Stage = seq<PrefixEncoding.Byte>

  datatype Row = Row(record: nat, json: string, diagnostic: Option<string>)

  type CommandResults = seq<Row>

  datatype Key = Key(view: View, stage: Stage)

  datatype Publication = Publication(rows: CommandResults, bytes: nat)

  datatype StepKey = StepKey(stage: Stage, name: seq<PrefixEncoding.Byte>)

  datatype Refusal = TooManyRecords | PublicationTooLarge | WorkspaceFull

  const MAX_PUBLICATION_BYTES: nat := 1024 * 1024
  const MAX_ALL_PUBLICATION_BYTES: nat := 8 * MAX_PUBLICATION_BYTES
  const MAX_PUBLICATION_RECORDS: nat := 1024

  type Publications = map<Key, Publication>

  function RowBytes(row: Row): nat {
    ByteLength(row.json) + if row.diagnostic.Some? then ByteLength(row.diagnostic.value) else 0
  }

  function Bytes(rows: CommandResults): nat {
    if rows == [] then 0 else Bytes(rows[..|rows| - 1]) + RowBytes(rows[|rows| - 1])
  }

  lemma {:induction false} BytesGrow(rows: CommandResults, k: nat)
    requires k <= |rows|
    ensures Bytes(rows[..k]) <= Bytes(rows)
    decreases |rows| - k
  {
    if k == |rows| {
      FullPrefix(rows);
    } else {
      assert rows[..k + 1][..k] == rows[..k];
      BytesGrow(rows, k + 1);
    }
  }

  /** All published bytes. */
  ghost function Total(publications: Publications): nat {
    SumOf(publications, BytesOf)
  }

  function BytesOf(publication: Publication): nat {
    publication.bytes
  }

  /** The sum does not depend on the order the keys are taken in. */
  lemma TotalSplit(publications: Publications, key: Key)
    requires key in publications
    ensures Total(publications) == publications[key].bytes + Total(publications - {key})
  {
    SumSplit(publications, BytesOf, key);
  }

  ghost predicate Reduced(smaller: Publications, larger: Publications) {
    forall key :: key in smaller ==> key in larger && smaller[key] == larger[key]
  }

  lemma {:induction false} TotalOfReduced(smaller: Publications, larger: Publications)
    requires Reduced(smaller, larger)
    ensures Total(smaller) <= Total(larger)
    decreases |smaller|
  {
    if smaller != map[] {
      var key :| key in smaller;
      TotalSplit(smaller, key);
      TotalSplit(larger, key);
      TotalOfReduced(smaller - {key}, larger - {key});
    }
  }

  /** Admission: the publication on its own, and next to every other one. */
  ghost predicate CanPublish(publications: Publications, key: Key, rows: CommandResults) {
    && |rows| <= MAX_PUBLICATION_RECORDS
    && Bytes(rows) <= MAX_PUBLICATION_BYTES
    && Total(publications - {key}) + Bytes(rows) <= MAX_ALL_PUBLICATION_BYTES
  }

  /** Clearing and reconfiguring never take an admission back. */
  lemma AdmissionSurvivesReduction(smaller: Publications, larger: Publications, key: Key, rows: CommandResults)
    requires Reduced(smaller, larger) && CanPublish(larger, key, rows)
    ensures CanPublish(smaller, key, rows)
  {
    TotalOfReduced(smaller - {key}, larger - {key});
  }

  /** The bounds a reader of the pane may rely on. */
  ghost predicate WithinLimits(publications: Publications) {
    && (forall key :: key in publications ==> Sound(publications[key]))
    && Total(publications) <= MAX_ALL_PUBLICATION_BYTES
  }

  ghost predicate Sound(publication: Publication) {
    && publication.bytes == Bytes(publication.rows) <= MAX_PUBLICATION_BYTES
    && |publication.rows| <= MAX_PUBLICATION_RECORDS
  }

  lemma PublishStaysWithinLimits(publications: Publications, key: Key, rows: CommandResults)
    requires WithinLimits(publications) && CanPublish(publications, key, rows)
    ensures WithinLimits(publications[key := Publication(rows, Bytes(rows))])
  {
    var next := publications[key := Publication(rows, Bytes(rows))];
    assert next - {key} == publications - {key};
    TotalSplit(next, key);
  }

  lemma ReductionStaysWithinLimits(smaller: Publications, larger: Publications)
    requires Reduced(smaller, larger) && WithinLimits(larger)
    ensures WithinLimits(smaller)
  {
    TotalOfReduced(smaller, larger);
  }

  /** Refused exactly when one of the publication's own limits is exceeded. */
  method PublicationBytes(rows: CommandResults) returns (r: Result<nat, Refusal>)
    ensures r.Ok? <==> |rows| <= MAX_PUBLICATION_RECORDS && Bytes(rows) <= MAX_PUBLICATION_BYTES
    ensures r.Ok? ==> r.value == Bytes(rows)
    ensures r == Err(TooManyRecords) <==> |rows| > MAX_PUBLICATION_RECORDS
  {
    if |rows| > MAX_PUBLICATION_RECORDS {
      return Err(TooManyRecords);
    }
    var bytes := 0;
    for k := 0 to |rows|
      invariant bytes == Bytes(rows[..k]) <= MAX_PUBLICATION_BYTES
    {
      assert rows[..k + 1][..k] == rows[..k];
      bytes := bytes + RowBytes(rows[k]);
      if bytes > MAX_PUBLICATION_BYTES {
        BytesGrow(rows, k + 1);
        return Err(PublicationTooLarge);
      }
    }
    FullPrefix(rows);
    return Ok(bytes);
  }

  /** The sum the capacity check builds over every other publication. */
  method SumBytes(publications: Publications) returns (bytes: nat)
    ensures bytes == Total(publications)
  {
    bytes := 0;
    var left := publications;
    while left.Keys != {}
      invariant bytes + Total(left) == Total(publications)
      decreases |left|
    {
      var key :| key in left.Keys;
      TotalSplit(left, key);
      bytes := bytes + left[key].bytes;
      left := left - {key};
    }
    assert left == map[];
  }

  class CommandPresentation {
    var publications: Publications
    var configured: map<View, seq<StepKey>>
    var revision: nat

    ghost predicate Valid()
      reads this
    {
      WithinLimits(publications)
    }

    constructor ()
      ensures Valid() && publications == map[] && configured == map[] && revision == 0
    {
      publications, configured, revision := map[], map[], 0;
    }

    method Admit(key: Key, rows: CommandResults) returns (r: Result<nat, Refusal>)
      ensures r.Ok? <==> CanPublish(publications, key, rows)
      ensures r.Ok? ==> r.value == Bytes(rows)
    {
      r := PublicationBytes(rows);
      if r.Err? {
        return;
      }
      var others := SumBytes(publications - {key});
      if others + r.value > MAX_ALL_PUBLICATION_BYTES {
        r := Err(WorkspaceFull);
      }
    }

    /** Admission is atomic: a refusal leaves every publication as it was. */
    method Publish(key: Key, rows: CommandResults) returns (published: bool)
      requires Valid()
      modifies this`publications, this`revision
      ensures Valid()
      ensures published <==> CanPublish(old(publications), key, rows)
      ensures published ==> publications == old(publications)[key := Publication(rows, Bytes(rows))]
      ensures published ==> revision == old(revision) + 1
      ensures !published ==> publications == old(publications) && revision == old(revision)
    {
      var bytes := Admit(key, rows);
      if bytes.Err? {
        return false;
      }
      PublishStaysWithinLimits(publications, key, rows);
      publications := publications[key := Publication(rows, bytes.value)];
      revision := revision + 1;
      return true;
    }

    method Clear(key: Key)
      requires Valid()
      modifies this`publications, this`revision
      ensures Valid()
      ensures publications == old(publications) - {key}
      ensures revision == if key in old(publications) then old(revision) + 1 else old(revision)
    {
      assert Reduced(publications - {key}, publications);
      ReductionStaysWithinLimits(publications - {key}, publications);
      if key in publications {
        publications := publications - {key};
        revision := revision + 1;
      }
    }

    /** A step that left a chain takes its publication with it. */
    method Configure(next: map<View, seq<StepKey>>)
      requires Valid()
      modifies this`publications, this`configured, this`revision
      ensures Valid() && configured == next
      ensures next == old(configured) ==> publications == old(publications) && revision == old(revision)
      ensures next != old(configured) ==>
        publications == Kept(old(publications), next) && revision == old(revision) + 1
      ensures Reduced(publications, old(publications))
      ensures next != old(configured) ==> forall key :: key in publications <==>
        key in old(publications) && key.view in next
        && exists i :: 0 <= i < |next[key.view]| && next[key.view][i].stage == key.stage
    {
      if configured != next {
        ReductionStaysWithinLimits(Kept(publications, next), publications);
        publications := Kept(publications, next);
        configured := next;
        revision := revision + 1;
      }
    }
  }

  predicate HasStep(steps: map<View, seq<StepKey>>, key: Key) {
    key.view in steps && exists i :: 0 <= i < |steps[key.view]| && steps[key.view][i].stage == key.stage
  }

  function Kept(publications: Publications, steps: map<View, seq<StepKey>>): (kept: Publications)
    ensures Reduced(kept, publications)
  {
    map key | key in publications && HasStep(steps, key) :: publications[key]
  }
}
