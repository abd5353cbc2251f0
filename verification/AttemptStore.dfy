/**
 * Attempts to enrich records with a command, as the attempt stores keep them for one scope:
 * never attempted, reserved, or finished as ready or failed. Reserving happens before a single
 * byte reaches a command, and what was once reserved is never offered to a command again.
 */
module AttemptStore {
  import opened Prelude

  type Id = nat
  type Token = nat

  /** A record's fields: their names in the order of the map, and all names and values as encoded text. */
  datatype Fields = Fields(names: seq<string>, json: string)

  const NO_FIELDS := Fields([], "{}")

  datatype Attempt =
    | Reserved(token: Token)
    | Ready(fields: Fields, note: Option<string>)
    | Failed(diagnostic: string)

  datatype Batch = Batch(ids: set<Id>, completed: bool)

  datatype Reservation = Reservation(token: Token, ids: set<Id>)

  datatype StoreError = Refused | Ambiguous

  /** How a call on the store breaks: not at all, before, or after the transaction committed. */
  datatype Fault = Sound | LostBefore | LostAfter

  const MAX_BATCH: nat := 1024
  const MAX_FIELDS: nat := 128
  const MAX_FIELD_NAME_BYTES: nat := 128
  const MAX_FIELDS_BYTES: nat := 256 * 1024
  const MAX_DIAGNOSTIC_BYTES: nat := 16 * 1024
  const MAX_BATCH_BYTES: nat := 1024 * 1024

  // --- what the store takes -----------------------------------------------------------------------

  predicate ProtectedName(name: string) {
    name == "raw" || "_lvu_" <= name
  }

  predicate Control(c: char) {
    c as int < 0x20 || 0x7f <= c as int <= 0x9f
  }

  predicate StorableName(name: string) {
    && name != "" && ByteLength(name) <= MAX_FIELD_NAME_BYTES && !ProtectedName(name)
    && forall i :: 0 <= i < |name| ==> !Control(name[i])
  }

  predicate StorableFields(fields: Fields) {
    && |fields.names| <= MAX_FIELDS && ByteLength(fields.json) <= MAX_FIELDS_BYTES
    && forall i :: 0 <= i < |fields.names| ==> StorableName(fields.names[i])
  }

  /** One final result; reserving is no result. */
  predicate StorableAttempt(attempt: Attempt) {
    match attempt
    case Reserved(_) => false
    case Ready(fields, note) =>
      StorableFields(fields) && (note.Some? ==> ByteLength(note.value) <= MAX_DIAGNOSTIC_BYTES)
    case Failed(diagnostic) => diagnostic != "" && ByteLength(diagnostic) <= MAX_DIAGNOSTIC_BYTES
  }

  /** What a row takes up. */
  function StoredBytes(attempt: Attempt): nat {
    match attempt
    case Reserved(_) => 0
    case Ready(fields, note) => ByteLength(fields.json) + if note.Some? then ByteLength(note.value) else 0
    case Failed(diagnostic) => ByteLength(diagnostic)
  }

  ghost function TotalBytes(outcomes: map<Id, Attempt>): nat {
    SumOf(outcomes, StoredBytes)
  }

  /** Results the store takes: each within its own limits, and all together within the batch's. */
  ghost predicate Storable(outcomes: map<Id, Attempt>) {
    (forall id :: id in outcomes ==> StorableAttempt(outcomes[id])) && TotalBytes(outcomes) <= MAX_BATCH_BYTES
  }

  /** The results are encoded one after the other; the first that does not fit turns all of them down. */
  method Encode(outcomes: map<Id, Attempt>) returns (fits: bool)
    ensures fits <==> Storable(outcomes)
  {
    var todo, total := outcomes, 0;
    while todo != map[]
      invariant forall id :: id in todo ==> id in outcomes && todo[id] == outcomes[id]
      invariant forall id :: id in outcomes && id !in todo ==> StorableAttempt(outcomes[id])
      invariant total + TotalBytes(todo) == TotalBytes(outcomes) && total <= MAX_BATCH_BYTES
      decreases |todo|
    {
      var id :| id in todo;
      SumSplit(todo, StoredBytes, id);
      if !StorableAttempt(todo[id]) {
        return false;
      }
      total := total + StoredBytes(todo[id]);
      if total > MAX_BATCH_BYTES {
        return false;
      }
      todo := todo - {id};
    }
    return true;
  }

  // --- what it gives back -------------------------------------------------------------------------

  /** What a lookup says of a record; nothing for one that was never attempted. */
  function StateOf(states: map<Id, Attempt>, id: Id): Option<Attempt> {
    if id in states then Some(states[id]) else None
  }

  /** The rows of these records, together. */
  function LookupBytes(states: map<Id, Attempt>, ids: seq<Id>): nat {
    if ids == [] then 0
    else
      var last := StateOf(states, ids[|ids| - 1]);
      LookupBytes(states, ids[..|ids| - 1]) + if last.Some? then StoredBytes(last.value) else 0
  }

  /** The rows of these records. */
  ghost function RowsFor(states: map<Id, Attempt>, ids: seq<Id>): map<Id, Attempt> {
    map id | id in ids && id in states :: states[id]
  }

  lemma RowsForNext(states: map<Id, Attempt>, front: seq<Id>, last: Id)
    requires last !in front
    ensures last in states ==> last in RowsFor(states, front + [last])
    ensures last in states ==> RowsFor(states, front + [last])[last] == states[last]
    ensures last in states ==> RowsFor(states, front + [last]) - {last} == RowsFor(states, front)
    ensures last !in states ==> RowsFor(states, front + [last]) == RowsFor(states, front)
  {
  }

  /** What a lookup of distinct records adds up are the sizes of the rows they have. */
  lemma {:induction false} LookupBytesAreTheRows(states: map<Id, Attempt>, ids: seq<Id>)
    requires NoDuplicates(ids)
    ensures LookupBytes(states, ids) == TotalBytes(RowsFor(states, ids))
  {
    if ids == [] {
      assert RowsFor(states, ids) == map[];
    } else {
      var front, last := ids[..|ids| - 1], ids[|ids| - 1];
      SplitLast(ids);
      LookupBytesAreTheRows(states, front);
      RowsForNext(states, front, last);
      if last in states {
        SumSplit(RowsFor(states, ids), StoredBytes, last);
      }
    }
  }

  lemma {:induction false} LookupBytesGrow(states: map<Id, Attempt>, ids: seq<Id>, k: nat)
    requires k <= |ids|
    ensures LookupBytes(states, ids[..k]) <= LookupBytes(states, ids)
    decreases |ids| - k
  {
    if k == |ids| {
      FullPrefix(ids);
    } else {
      assert ids[..k + 1][..k] == ids[..k];
      LookupBytesGrow(states, ids, k + 1);
    }
  }

  // --- reserving ----------------------------------------------------------------------------------

  /** Reservation is all or nothing: room for every ID and no ID attempted before. */
  predicate CanReserve(attempted: set<Id>, ids: set<Id>, capacity: nat) {
    |attempted| + |ids| <= capacity && attempted !! ids
  }

  lemma ReservingKeepsCapacity(attempted: set<Id>, ids: set<Id>, capacity: nat)
    requires CanReserve(attempted, ids, capacity)
    ensures |attempted + ids| <= capacity
  {
    assert |attempted + ids| == |attempted| + |ids|;
  }

  /** The ledger for a single run of the program, which never fails on its own. */
  class AttemptLedger {
    const capacity: nat
    var attempted: set<Id>
    /** Every record ever handed to a command, in order of delivery. */
    var delivered: seq<Id>

    ghost predicate Valid()
      reads this
    {
      |attempted| <= capacity && NoDuplicates(delivered) && forall id :: id in delivered ==> id in attempted
    }

    constructor (capacity: nat)
      requires capacity > 0
      ensures Valid() && attempted == {} && delivered == [] && this.capacity == capacity
    {
      this.capacity := capacity;
      attempted, delivered := {}, [];
    }

    method Reserve(ids: set<Id>) returns (reserved: bool)
      requires Valid()
      modifies this`attempted
      ensures Valid()
      ensures reserved <==> CanReserve(old(attempted), ids, capacity)
      ensures attempted == if reserved then old(attempted) + ids else old(attempted)
    {
      if |ids| > capacity - |attempted| {
        return false;
      }
      if exists id :: id in ids && id in attempted {
        return false;
      }
      ReservingKeepsCapacity(attempted, ids, capacity);
      attempted := attempted + ids;
      return true;
    }

    /** The bytes of these records, in this order, are handed to a command. */
    method Deliver(ids: seq<Id>)
      requires Valid() && NoDuplicates(ids)
      requires forall id :: id in ids ==> id in attempted && id !in delivered
      modifies this`delivered
      ensures Valid() && delivered == old(delivered) + ids
    {
      NoDuplicatesJoin(delivered, ids);
      delivered := delivered + ids;
    }
  }

  function ReservedBy(token: Token, ids: set<Id>): (m: map<Id, Attempt>)
    ensures m.Keys == ids
  {
    map id | id in ids :: Reserved(token)
  }

  ghost predicate Pending(batches: map<Token, Batch>, token: Token, id: Id) {
    token in batches && !batches[token].completed && id in batches[token].ids
  }

  /** A record is reserved by a batch exactly while that batch still owes its result. */
  ghost predicate Consistent(states: map<Id, Attempt>, batches: map<Token, Batch>, nextToken: Token) {
    && (forall id :: id in states && states[id].Reserved? ==> Pending(batches, states[id].token, id))
    && (forall t, id :: Pending(batches, t, id) ==> id in states && states[id] == Reserved(t))
    && (forall t :: t in batches ==> t < nextToken)
  }

  lemma InsertKeepsConsistent(states: map<Id, Attempt>, batches: map<Token, Batch>, token: Token, ids: set<Id>)
    requires Consistent(states, batches, token) && states.Keys !! ids
    ensures Consistent(states + ReservedBy(token, ids), batches[token := Batch(ids, false)], token + 1)
  {
    var states', batches' := states + ReservedBy(token, ids), batches[token := Batch(ids, false)];
    forall id | id in states' && states'[id].Reserved? ensures Pending(batches', states'[id].token, id) {
      if id !in ids {
        assert Pending(batches, states[id].token, id);
      }
    }
    forall t, id | Pending(batches', t, id) ensures id in states' && states'[id] == Reserved(t) {
      if t != token {
        assert Pending(batches, t, id);
      }
    }
  }

  lemma CompleteKeepsConsistent(states: map<Id, Attempt>, batches: map<Token, Batch>, next: Token, token: Token,
        outcomes: map<Id, Attempt>)
    requires Consistent(states, batches, next) && token in batches
    requires forall id :: id in outcomes ==> !outcomes[id].Reserved?
    requires outcomes.Keys == batches[token].ids && !batches[token].completed
    ensures Consistent(states + outcomes, batches[token := Batch(outcomes.Keys, true)], next)
    ensures (states + outcomes).Keys == states.Keys
    ensures forall id :: id in states && states[id] != Reserved(token) ==> (states + outcomes)[id] == states[id]
  {
    var states', batches' := states + outcomes, batches[token := Batch(outcomes.Keys, true)];
    forall id | id in outcomes ensures id in states && states[id] == Reserved(token) {
      assert Pending(batches, token, id);
    }
    forall id | id in states' && states'[id].Reserved? ensures Pending(batches', states'[id].token, id) {
      assert id in states && Pending(batches, states[id].token, id);
    }
    forall t, id | Pending(batches', t, id) ensures id in states' && states'[id] == Reserved(t) {
      assert Pending(batches, t, id);
    }
  }

  lemma SubsetOfEqualSize<T>(a: set<T>, b: set<T>)
    requires a <= b && |a| == |b|
    ensures a == b
  {
    assert b == a + (b - a);
    assert |b| == |a| + |b - a|;
  }

  /** The store takes results: an open batch of this size, every row still reserved by it. */
  predicate Settles(states: map<Id, Attempt>, batches: map<Token, Batch>, token: Token, outcomes: map<Id, Attempt>) {
    && token in batches && !batches[token].completed && |batches[token].ids| == |outcomes|
    && forall id :: id in outcomes ==> id in states && states[id] == Reserved(token)
  }

  lemma OpenBatchSettles(states: map<Id, Attempt>, batches: map<Token, Batch>, next: Token, token: Token,
        outcomes: map<Id, Attempt>)
    requires Consistent(states, batches, next)
    ensures token in batches && batches[token] == Batch(outcomes.Keys, false) ==>
      Settles(states, batches, token, outcomes)
  {
    if token in batches && batches[token] == Batch(outcomes.Keys, false) {
      forall id | id in outcomes ensures id in states && states[id] == Reserved(token) {
        assert Pending(batches, token, id);
      }
    }
  }

  lemma OutcomesAreTheBatch(states: map<Id, Attempt>, batches: map<Token, Batch>, next: Token, token: Token,
        outcomes: map<Id, Attempt>)
    requires Consistent(states, batches, next) && Settles(states, batches, token, outcomes)
    ensures outcomes.Keys == batches[token].ids
  {
    forall id | id in outcomes ensures id in batches[token].ids {
      assert Pending(batches, states[id].token, id);
    }
    SubsetOfEqualSize(outcomes.Keys, batches[token].ids);
  }

  /** The durable store, one scope of it. Each call may break around its transaction. */
  class DurableStore {
    const capacity: nat
    var states: map<Id, Attempt>
    var batches: map<Token, Batch>
    var nextToken: Token
    /** Every record ever handed to a command in this scope, in order of delivery. */
    var delivered: seq<Id>

    ghost predicate Valid()
      reads this
    {
      && |states| <= capacity
      && NoDuplicates(delivered) && (forall id :: id in delivered ==> id in states)
      && Consistent(states, batches, nextToken)
      && (forall id :: id in states ==> states[id].Reserved? || StorableAttempt(states[id]))
    }

    /** The reservation was granted and its results have not been stored yet. */
    ghost predicate Open(reservation: Reservation)
      reads this
    {
      reservation.token in batches && batches[reservation.token] == Batch(reservation.ids, false)
    }

    constructor (capacity: nat)
      ensures Valid() && states == map[] && delivered == [] && this.capacity == capacity
    {
      this.capacity := capacity;
      states, batches, nextToken, delivered := map[], map[], 0, [];
    }

    /** Whatever a failed call reports, the reservation either happened whole or not at all. */
    method Reserve(ids: set<Id>, fault: Fault) returns (r: Result<Reservation, StoreError>)
      requires Valid()
      modifies this`states, this`batches, this`nextToken
      ensures Valid()
      ensures r.Ok? ==> r.value.ids == ids && r.value.token == old(nextToken)
      ensures r.Ok? ==> 0 < |ids| <= MAX_BATCH && CanReserve(old(states.Keys), ids, capacity) && fault.Sound?
      ensures 0 < |ids| <= MAX_BATCH && CanReserve(old(states.Keys), ids, capacity) && fault.Sound? ==> r.Ok?
      ensures r.Ok? ==> states == old(states) + ReservedBy(old(nextToken), ids)
      ensures r.Ok? ==> batches == old(batches)[old(nextToken) := Batch(ids, false)]
      ensures r.Err? && states != old(states) ==>
        states == old(states) + ReservedBy(old(nextToken), ids) && CanReserve(old(states.Keys), ids, capacity)
    {
      if !(0 < |ids| <= MAX_BATCH) || fault.LostBefore? {
        return Err(Refused);
      }
      if exists id :: id in ids && id in states {
        return Err(Refused);
      }
      if |states| + |ids| > capacity {
        return Err(Refused);
      }
      var token := nextToken;
      Insert(ids);
      if fault.LostAfter? {
        return Err(Ambiguous);
      }
      return Ok(Reservation(token, ids));
    }

    method Insert(ids: set<Id>)
      requires Valid() && CanReserve(states.Keys, ids, capacity)
      modifies this`states, this`batches, this`nextToken
      ensures Valid()
      ensures states == old(states) + ReservedBy(old(nextToken), ids)
      ensures batches == old(batches)[old(nextToken) := Batch(ids, false)]
    {
      var token := nextToken;
      ReservingKeepsCapacity(states.Keys, ids, capacity);
      InsertKeepsConsistent(states, batches, token, ids);
      assert (states + ReservedBy(token, ids)).Keys == states.Keys + ids;
      states := states + ReservedBy(token, ids);
      batches := batches[token := Batch(ids, false)];
      nextToken := token + 1;
    }

    /** What `Complete` asks of a reservation and its results. */
    ghost predicate Completable(reservation: Reservation, outcomes: map<Id, Attempt>)
      reads this
    {
      Open(reservation) && outcomes.Keys == reservation.ids && Storable(outcomes)
    }

    /**
     * Results replace exactly the reservation they belong to, once, and only if the store takes all of them;
     * otherwise nothing changes.
     */
    method Complete(reservation: Reservation, outcomes: map<Id, Attempt>, fault: Fault) returns (completed: bool)
      requires Valid()
      modifies this`states, this`batches
      ensures Valid()
      ensures completed <==> fault.Sound? && old(Completable(reservation, outcomes))
      ensures states ==
        if !fault.LostBefore? && old(Completable(reservation, outcomes)) then old(states) + outcomes else old(states)
      ensures states.Keys == old(states.Keys)
      ensures forall id :: id in old(states) && old(states)[id] != Reserved(reservation.token)
                       ==> states[id] == old(states)[id]
    {
      if outcomes.Keys != reservation.ids {
        return false;
      }
      var fits := Encode(outcomes);
      if !fits || fault.LostBefore? {
        return false;
      }
      var token := reservation.token;
      OpenBatchSettles(states, batches, nextToken, token, outcomes);
      if !Settles(states, batches, token, outcomes) {
        return false;
      }
      OutcomesAreTheBatch(states, batches, nextToken, token, outcomes);
      Settle(token, outcomes);
      return !fault.LostAfter?;
    }

    method Settle(token: Token, outcomes: map<Id, Attempt>)
      requires Valid() && Settles(states, batches, token, outcomes) && Storable(outcomes)
      modifies this`states, this`batches
      ensures Valid() && states.Keys == old(states.Keys) && states == old(states) + outcomes
      ensures forall id :: id in old(states) && old(states)[id] != Reserved(token) ==> states[id] == old(states)[id]
    {
      OutcomesAreTheBatch(states, batches, nextToken, token, outcomes);
      CompleteKeepsConsistent(states, batches, nextToken, token, outcomes);
      states := states + outcomes;
      batches := batches[token := Batch(outcomes.Keys, true)];
    }

    /** The bytes of these records, in this order, are handed to a command. */
    method Deliver(ids: seq<Id>)
      requires Valid() && NoDuplicates(ids)
      requires forall id :: id in ids ==> id in states && id !in delivered
      modifies this`delivered
      ensures Valid() && delivered == old(delivered) + ids
    {
      NoDuplicatesJoin(delivered, ids);
      delivered := delivered + ids;
    }

    /** The states of these records, in order; refused when they take up too much together. */
    method Lookup(ids: seq<Id>, fails: bool) returns (r: Result<seq<Option<Attempt>>, StoreError>)
      requires Valid()
      ensures r.Ok? <==> !fails && LookupBytes(states, ids) <= MAX_BATCH_BYTES
      ensures r.Ok? ==> |r.value| == |ids| && forall k :: 0 <= k < |ids| ==> r.value[k] == StateOf(states, ids[k])
      ensures r.Ok? ==> forall k :: 0 <= k < |ids| ==>
        r.value[k] == if ids[k] in states then Some(states[ids[k]]) else None
    {
      if fails {
        return Err(Refused);
      }
      var found: seq<Option<Attempt>>, total := [], 0;
      for k := 0 to |ids|
        invariant |found| == k && forall j :: 0 <= j < k ==> found[j] == StateOf(states, ids[j])
        invariant total == LookupBytes(states, ids[..k]) <= MAX_BATCH_BYTES
      {
        assert ids[..k + 1][..k] == ids[..k];
        var state := StateOf(states, ids[k]);
        total := total + if state.Some? then StoredBytes(state.value) else 0;
        if total > MAX_BATCH_BYTES {
          LookupBytesGrow(states, ids, k + 1);
          return Err(Refused);
        }
        found := found + [state];
      }
      FullPrefix(ids);
      return Ok(found);
    }
  }
}
