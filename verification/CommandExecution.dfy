/**
 * Running a command over a caller's records: only records never attempted reach the command, and
 * success means one ready result for every record, in the caller's order.
 */
module CommandExecution {
  import opened Prelude
  import opened AttemptStore
  import opened EnrichBatch
  import opened EnrichRunner

  const MAX_RECORDS: nat := 1024
  const MAX_INPUT_BYTES: nat := 4 * 1024 * 1024
  const MAX_RESULT_BYTES: nat := 1024 * 1024
  const RECORD_OVERHEAD: nat := 32
  const DEFAULT_LIMITS := Limits(1024, 1024, 8 * 1024 * 1024)

  datatype Record = Record(id: Id, fields: Fields, note: Option<string>)

  datatype ExecutionResult = ExecutionResult(records: seq<Record>, diagnostics: seq<string>)

  datatype ExecutionError =
    | InvalidRecords
    | InputTooLarge
    | ResultTooLarge
    | Cancelled
    | AttemptUnavailable(id: Id)
    | Protocol(text: string)
    | StoreError
    | Runner(error: RunnerError)

  /** The outside events of one execution. */
  datatype World = World(
    cancelled: bool, firstLookupFails: bool, batch: Env, lastLookupFails: bool, cancelledLast: bool)

  function EventSize(event: Event): nat {
    ByteLength(event.raw) + event.bytes + ByteLength(event.fields.json) + 256
  }

  function InputSize(events: seq<Event>): nat {
    if events == [] then 0 else InputSize(events[..|events| - 1]) + EventSize(events[|events| - 1])
  }

  function TextSize(texts: seq<string>): nat {
    if texts == [] then 0 else TextSize(texts[..|texts| - 1]) + ByteLength(texts[|texts| - 1])
  }

  function RecordSize(record: Record): nat {
    ByteLength(record.fields.json) + RECORD_OVERHEAD + if record.note.Some? then ByteLength(record.note.value) else 0
  }

  function ResultSize(records: seq<Record>): nat {
    if records == [] then 0 else ResultSize(records[..|records| - 1]) + RecordSize(records[|records| - 1])
  }

  lemma {:induction false} InputSizeGrows(events: seq<Event>, k: nat)
    requires k <= |events|
    ensures InputSize(events[..k]) <= InputSize(events)
    decreases |events| - k
  {
    if k == |events| {
      FullPrefix(events);
    } else {
      assert events[..k + 1][..k] == events[..k];
      InputSizeGrows(events, k + 1);
    }
  }

  method ValidateInputSize(events: seq<Event>) returns (fits: bool)
    ensures fits <==> InputSize(events) <= MAX_INPUT_BYTES
  {
    var bytes := 0;
    for k := 0 to |events|
      invariant bytes == InputSize(events[..k]) <= MAX_INPUT_BYTES
    {
      assert events[..k + 1][..k] == events[..k];
      bytes := bytes + EventSize(events[k]);
      if bytes > MAX_INPUT_BYTES {
        InputSizeGrows(events, k + 1);
        return false;
      }
    }
    FullPrefix(events);
    return true;
  }

  method ValidateResultSize(records: seq<Record>, diagnostics: seq<string>) returns (fits: bool)
    ensures fits <==> TextSize(diagnostics) + ResultSize(records) <= MAX_RESULT_BYTES
  {
    var bytes := TextSize(diagnostics);
    for k := 0 to |records|
      invariant bytes == TextSize(diagnostics) + ResultSize(records[..k])
    {
      assert records[..k + 1][..k] == records[..k];
      bytes := bytes + RecordSize(records[k]);
    }
    FullPrefix(records);
    return bytes <= MAX_RESULT_BYTES;
  }

  /** An earlier attempt without a reusable result rules the whole execution out. */
  predicate Spoiled(state: Option<Attempt>) {
    state.Some? && !state.value.Ready?
  }

  ghost predicate AnySpoiled(states: map<Id, Attempt>, events: seq<Event>) {
    exists k :: 0 <= k < |events| && Spoiled(StateOf(states, events[k].id))
  }

  ghost predicate FirstSpoiled(states: map<Id, Attempt>, events: seq<Event>, k: nat) {
    && k < |events| && Spoiled(StateOf(states, events[k].id))
    && forall j {:trigger Spoiled(StateOf(states, events[j].id))} :: 0 <= j < k ==>
         !Spoiled(StateOf(states, events[j].id))
  }

  /** The error names the first record whose attempt has no result. */
  ghost predicate NamesSpoiled(states: map<Id, Attempt>, events: seq<Event>, error: ExecutionError) {
    exists k: nat :: FirstSpoiled(states, events, k) && error == AttemptUnavailable(events[k].id)
  }

  /** The first record without a result to return. */
  ghost predicate FirstUnready(states: map<Id, Attempt>, events: seq<Event>, k: nat) {
    && k < |events| && !ReadyIn(states, events[k])
    && forall j {:trigger ReadyIn(states, events[j])} :: 0 <= j < k ==> ReadyIn(states, events[j])
  }

  predicate ReadyIn(states: map<Id, Attempt>, event: Event) {
    event.id in states && states[event.id].Ready?
  }

  /** An attempt without a result is named; a record that was never attempted is the store's fault. */
  ghost predicate NamesUnready(states: map<Id, Attempt>, events: seq<Event>, error: ExecutionError) {
    exists k: nat :: FirstUnready(states, events, k)
      && error == if events[k].id in states then AttemptUnavailable(events[k].id) else StoreError
  }

  ghost predicate AllReady(states: map<Id, Attempt>, events: seq<Event>) {
    forall k :: 0 <= k < |events| ==> events[k].id in states && states[events[k].id].Ready?
  }

  /** The records never attempted, in the caller's order. */
  function Unseen(states: map<Id, Attempt>, events: seq<Event>): seq<Event> {
    if events == [] then []
    else
      var front, last := Unseen(states, events[..|events| - 1]), events[|events| - 1];
      if last.id in states then front else front + [last]
  }

  lemma {:induction false} UnseenMembers(states: map<Id, Attempt>, events: seq<Event>)
    ensures forall e :: e in Unseen(states, events) <==> e in events && e.id !in states
  {
    if events != [] {
      SplitLast(events);
      UnseenMembers(states, events[..|events| - 1]);
    }
  }

  /** The places of the records never attempted. */
  function UnseenPlaces(states: map<Id, Attempt>, events: seq<Event>): seq<nat> {
    if events == [] then []
    else
      var n := |events| - 1;
      if events[n].id in states then UnseenPlaces(states, events[..n]) else UnseenPlaces(states, events[..n]) + [n]
  }

  lemma {:induction false} UnseenPlacesAre(states: map<Id, Attempt>, events: seq<Event>, k: nat)
    ensures k in UnseenPlaces(states, events) <==> k < |events| && events[k].id !in states
  {
    if events != [] {
      UnseenPlacesAre(states, events[..|events| - 1], k);
    }
  }

  /** They come in the caller's order. */
  lemma {:induction false} UnseenInOrder(states: map<Id, Attempt>, events: seq<Event>)
    ensures Picked(Unseen(states, events), events, UnseenPlaces(states, events))
  {
    if events != [] {
      var n := |events| - 1;
      SplitLast(events);
      UnseenInOrder(states, events[..n]);
      PickedNext(Unseen(states, events[..n]), events[..n], UnseenPlaces(states, events[..n]), events[n],
                 events[n].id !in states);
    }
  }

  lemma NothingUnseen(states: map<Id, Attempt>, events: seq<Event>)
    requires !AnySpoiled(states, events)
    ensures Unseen(states, events) == [] <==> AllReady(states, events)
  {
    UnseenMembers(states, events);
    if Unseen(states, events) == [] {
      forall k | 0 <= k < |events| ensures events[k].id in states && states[events[k].id].Ready? {
        assert events[k] in events;
        assert !Spoiled(StateOf(states, events[k].id));
      }
    } else {
      assert Unseen(states, events)[0] in Unseen(states, events);
    }
  }

  /** A lookup's answer for the records of `events`. */
  ghost predicate Found(found: seq<Option<Attempt>>, states: map<Id, Attempt>, events: seq<Event>) {
    |found| == |events| && forall k :: 0 <= k < |events| ==> found[k] == StateOf(states, events[k].id)
  }

  /** The records of `events` the store has never seen; one spoiled attempt refuses them all. */
  method NeverAttempted(found: seq<Option<Attempt>>, events: seq<Event>, ghost states: map<Id, Attempt>)
    returns (r: Result<seq<Event>, ExecutionError>)
    requires Found(found, states, events)
    ensures r.Err? <==> AnySpoiled(states, events)
    ensures r.Ok? ==> r.value == Unseen(states, events)
    ensures r.Err? ==> NamesSpoiled(states, events, r.error)
  {
    var never: seq<Event> := [];
    for k := 0 to |events|
      invariant forall j :: 0 <= j < k ==> !Spoiled(StateOf(states, events[j].id))
      invariant never == Unseen(states, events[..k])
    {
      assert events[..k + 1][..k] == events[..k];
      assert Spoiled(StateOf(states, events[k].id)) ==> FirstSpoiled(states, events, k);
      match found[k]
      case None => never := never + [events[k]];
      case Some(Ready(_, _)) =>
      case Some(Reserved(_)) => return Err(AttemptUnavailable(events[k].id));
      case Some(Failed(_)) => return Err(AttemptUnavailable(events[k].id));
    }
    FullPrefix(events);
    return Ok(never);
  }

  /** The stored result of a record. */
  function RecordOf(states: map<Id, Attempt>, id: Id): Record
    requires id in states && states[id].Ready?
  {
    Record(id, states[id].fields, states[id].note)
  }

  /** Every record of the caller, in order, with its stored result. */
  ghost predicate Complete(records: seq<Record>, states: map<Id, Attempt>, events: seq<Event>)
  {
    && |records| == |events| && AllReady(states, events)
    && forall k :: 0 <= k < |events| ==> records[k] == RecordOf(states, events[k].id)
  }

  method Collect(found: seq<Option<Attempt>>, events: seq<Event>, ghost states: map<Id, Attempt>)
    returns (r: Result<seq<Record>, ExecutionError>)
    requires Found(found, states, events)
    ensures r.Ok? <==> AllReady(states, events)
    ensures r.Ok? ==> Complete(r.value, states, events)
    ensures r.Err? ==> NamesUnready(states, events, r.error)
  {
    var records: seq<Record> := [];
    for k := 0 to |events|
      invariant |records| == k
      invariant forall j :: 0 <= j < k ==> events[j].id in states && states[events[j].id].Ready?
      invariant forall j :: 0 <= j < k ==> records[j] == RecordOf(states, events[j].id)
    {
      assert !(found[k].Some? && found[k].value.Ready?) ==> FirstUnready(states, events, k);
      match found[k]
      case Some(Ready(fields, note)) => records := records + [Record(events[k].id, fields, note)];
      case Some(Reserved(_)) => return Err(AttemptUnavailable(events[k].id));
      case Some(Failed(_)) => return Err(AttemptUnavailable(events[k].id));
      case None => return Err(StoreError);
    }
    return Ok(records);
  }

  /** The size of the results of these records, once all are ready. */
  function FinalSize(states: map<Id, Attempt>, events: seq<Event>): nat {
    LookupBytes(states, IdsOf(events)) + RECORD_OVERHEAD * |events|
  }

  lemma {:induction false} FinalSizeIsResultSize(records: seq<Record>, states: map<Id, Attempt>, events: seq<Event>)
    requires Complete(records, states, events)
    ensures ResultSize(records) == FinalSize(states, events)
  {
    if events != [] {
      var n := |events| - 1;
      assert IdsOf(events)[..n] == IdsOf(events[..n]);
      FinalSizeIsResultSize(records[..n], states, events[..n]);
    }
  }

  // --- effects on the store ------------------------------------------------------------------------

  /** Nothing the store knew is lost, changed or run again. */
  ghost predicate Preserves(before: map<Id, Attempt>, after: map<Id, Attempt>) {
    forall id :: id in before ==> id in after && after[id] == before[id]
  }

  /** The conversation an execution holds: the first session of a fresh runner. */
  function TopicFor(never: seq<Event>): Topic {
    Topic(1, 1, Ids(never), DEFAULT_LIMITS.maxOutputBytes)
  }

  /** Every result the execution added was earned in its own conversation. */
  ghost predicate EarnedHere(before: map<Id, Attempt>, after: map<Id, Attempt>, events: seq<Event>,
        never: seq<Event>, polls: seq<Poll>)
  {
    && after.Keys <= before.Keys + Ids(events)
    && forall k :: 0 <= k < |events| && events[k].id !in before && events[k].id in after ==>
         Earned(after[events[k].id], polls, TopicFor(never), events[k])
  }

  lemma AskedIsNever(never: seq<Event>, states: map<Id, Attempt>)
    requires forall e :: e in never ==> e.id !in states
    ensures Asked(never, states.Keys) == Ids(never)
  {
  }

  lemma EarnedForAll(before: map<Id, Attempt>, after: map<Id, Attempt>, events: seq<Event>, never: seq<Event>,
        polls: seq<Poll>)
    requires BatchEffect(before, after, never, polls, TopicFor(never))
    requires forall e :: e in never <==> e in events && e.id !in before
    ensures EarnedHere(before, after, events, never, polls)
  {
    forall id | id in Ids(never) ensures id in Ids(events) {
      var i :| 0 <= i < |never| && never[i].id == id;
      assert never[i] in never;
      var j :| 0 <= j < |events| && events[j] == never[i];
    }
    forall k | 0 <= k < |events| && events[k].id !in before && events[k].id in after
      ensures Earned(after[events[k].id], polls, TopicFor(never), events[k])
    {
      var i :| 0 <= i < |never| && never[i] == events[k];
      assert Earned(after[never[i].id], polls, TopicFor(never), never[i]);
    }
  }

  /** Nothing outside the conversation stops the batch of these records. */
  ghost predicate Unhindered(states: map<Id, Attempt>, capacity: nat, never: seq<Event>, env: Env) {
    HandsOver(states, capacity, never, env) && env.persisting.Sound?
  }

  /** The batch of these records is admitted, granted and not stopped, and so handed to the command. */
  ghost predicate HandsOver(states: map<Id, Attempt>, capacity: nat, never: seq<Event>, env: Env) {
    && |never| <= MAX_RECORDS && Distinct(never) && Starts(env) && !Stopped(env) && env.reserving.Sound?
    && RoomFor(Asked(never, states.Keys), states.Keys, capacity) && |Asked(never, states.Keys)| <= MAX_BATCH
  }

  /** What becomes of an unhindered batch of unattempted records. */
  ghost predicate RunsExactly(before: map<Id, Attempt>, token: Token, after: map<Id, Attempt>, never: seq<Event>,
        env: Env, r: Result<BatchOutcome, RunnerError>)
  {
    && (r.Ok? && r.value.diagnostics == [] <==>
          exists n :: CleanRun(env.polls, n, TopicFor(never)) && Storable(HarvestOf(never, env, n)))
    && (forall n :: CleanRun(env.polls, n, TopicFor(never)) ==>
          Harvests(before + ReservedBy(token, Ids(never)), after, HarvestOf(never, env, n), r))
  }

  /** A fresh runner for these records. */
  method RunFresh(store: DurableStore, never: seq<Event>, env: Env) returns (r: Result<BatchOutcome, RunnerError>)
    requires store.Valid() && forall e :: e in never ==> e.id !in store.states
    modifies store`states, store`batches, store`nextToken, store`delivered
    ensures store.Valid()
    ensures BatchEffect(old(store.states), store.states, never, env.polls, TopicFor(never))
    ensures store.delivered == old(store.delivered)
      + if old(HandsOver(store.states, store.capacity, never, env)) then IdsOf(never) else []
    ensures !old(HandsOver(store.states, store.capacity, never, env)) ==>
      NothingEarned(old(store.states), store.states)
    ensures r.Ok? && !old(Unhindered(store.states, store.capacity, never, env)) ==>
      NothingEarned(old(store.states), store.states)
    ensures old(Unhindered(store.states, store.capacity, never, env)) ==>
      RunsExactly(old(store.states), old(store.nextToken), store.states, never, env, r)
  {
    var runner := new CommandEnricher(1, DEFAULT_LIMITS);
    AskedIsNever(never, store.states);
    AllAreDelivered(never, Ids(never));
    r := runner.RunBatch(store, 1, never, env);
  }

  /** The batch of records never attempted. */
  method RunNever(store: DurableStore, events: seq<Event>, never: seq<Event>, env: Env)
    returns (r: Result<BatchOutcome, RunnerError>)
    requires store.Valid()
    requires forall e :: e in never <==> e in events && e.id !in store.states
    modifies store`states, store`batches, store`nextToken, store`delivered
    ensures store.Valid() && Preserves(old(store.states), store.states)
    ensures EarnedHere(old(store.states), store.states, events, never, env.polls)
    ensures store.delivered == old(store.delivered)
      + if old(HandsOver(store.states, store.capacity, never, env)) then IdsOf(never) else []
    ensures !old(HandsOver(store.states, store.capacity, never, env)) ==>
      NothingEarned(old(store.states), store.states)
    ensures r.Ok? && !old(Unhindered(store.states, store.capacity, never, env)) ==>
      NothingEarned(old(store.states), store.states)
    ensures old(Unhindered(store.states, store.capacity, never, env)) ==>
      RunsExactly(old(store.states), old(store.nextToken), store.states, never, env, r)
  {
    ghost var before := store.states;
    r := RunFresh(store, never, env);
    EarnedForAll(before, store.states, events, never, env.polls);
  }

  predicate Acceptable(events: seq<Event>) {
    0 < |events| <= MAX_RECORDS && Distinct(events) && InputSize(events) <= MAX_INPUT_BYTES
  }

  /** Why the results cannot be returned. */
  ghost predicate EndsWith(states: map<Id, Attempt>, events: seq<Event>, world: World, error: ExecutionError) {
    if world.lastLookupFails || LookupBytes(states, IdsOf(events)) > MAX_BATCH_BYTES then error == StoreError
    else if world.cancelledLast then error == Cancelled
    else if AllReady(states, events) then error == ResultTooLarge
    else NamesUnready(states, events, error)
  }

  /** The stored results, once every record has one. */
  method Finish(store: DurableStore, events: seq<Event>, diagnostics: seq<string>, world: World)
    returns (r: Result<ExecutionResult, ExecutionError>)
    requires store.Valid()
    ensures r.Ok? ==> Complete(r.value.records, store.states, events) && r.value.diagnostics == diagnostics
    ensures r.Ok? <==>
      !world.lastLookupFails && !world.cancelledLast && AllReady(store.states, events)
      && TextSize(diagnostics) + FinalSize(store.states, events) <= MAX_RESULT_BYTES
    ensures r.Err? ==> EndsWith(store.states, events, world, r.error)
  {
    var found := store.Lookup(IdsOf(events), world.lastLookupFails);
    if found.Err? {
      return Err(StoreError);
    }
    if world.cancelledLast {
      return Err(Cancelled);
    }
    var records := Collect(found.value, events, store.states);
    if records.Err? {
      return Err(records.error);
    }
    FinalSizeIsResultSize(records.value, store.states, events);
    var fits := ValidateResultSize(records.value, diagnostics);
    if !fits {
      return Err(ResultTooLarge);
    }
    return Ok(ExecutionResult(records.value, diagnostics));
  }

  /** No cancellation and no failing lookup. */
  predicate Quiet(world: World) {
    !world.cancelled && !world.firstLookupFails && !world.lastLookupFails && !world.cancelledLast
  }

  // --- when an execution succeeds ---------------------------------------------------------------------

  /** A valid conversation whose every answer is allowed and of a form the store takes. */
  ghost predicate AnswersAll(polls: seq<Poll>, n: nat, never: seq<Event>) {
    && CleanRun(polls, n, TopicFor(never))
    && forall k :: 0 <= k < |never| ==> AnswersWell(Answers(polls[..n - 1]), never[k])
  }

  predicate AnswersWell(answers: map<Id, Fields>, event: Event) {
    event.id in answers && Allowed(event, answers[event.id]) && StorableFields(answers[event.id])
  }

  /**
   * Nothing outside goes wrong; every record is ready, or is answered well in a valid conversation; and all
   * results together keep the result limit.
   */
  ghost predicate Succeeds(states: map<Id, Attempt>, capacity: nat, events: seq<Event>, world: World) {
    && Acceptable(events) && Quiet(world) && !AnySpoiled(states, events)
    && var never := Unseen(states, events);
       if never == [] then FinalSize(states, events) <= MAX_RESULT_BYTES
       else
         && Unhindered(states, capacity, never, world.batch)
         && exists n :: Suffices(states, events, world.batch, n)
  }

  /** The conversation of `n` polls answers every unattempted record well, within the result limit. */
  ghost predicate Suffices(states: map<Id, Attempt>, events: seq<Event>, env: Env, n: nat) {
    && AnswersAll(env.polls, n, Unseen(states, events))
    && FinalSize(states + HarvestOf(Unseen(states, events), env, n), events) <= MAX_RESULT_BYTES
  }

  /** What a lookup adds up never shrinks when unattempted records get their results. */
  lemma {:induction false} LookupGrows(states: map<Id, Attempt>, more: map<Id, Attempt>, ids: seq<Id>)
    requires states.Keys !! more.Keys
    ensures LookupBytes(states, ids) <= LookupBytes(states + more, ids)
  {
    if ids != [] {
      LookupGrows(states, more, ids[..|ids| - 1]);
    }
  }

  lemma IdsWithLast(events: seq<Event>)
    requires events != []
    ensures Ids(events) == Ids(events[..|events| - 1]) + {events[|events| - 1].id}
  {
    var front := events[..|events| - 1];
    forall id ensures id in Ids(events) <==> id in Ids(front) || id == events[|events| - 1].id {
      if id in Ids(events) {
        var i :| 0 <= i < |events| && events[i].id == id;
        assert i < |front| ==> front[i].id == id;
      }
      if id in Ids(front) {
        var i :| 0 <= i < |front| && front[i].id == id;
        assert events[i].id == id;
      }
    }
  }

  lemma IdsWithoutLast(events: seq<Event>)
    requires events != []
    ensures IdsOf(events)[..|events| - 1] == IdsOf(events[..|events| - 1])
    ensures IdsOf(events)[|events| - 1] == events[|events| - 1].id
  {
  }

  /** Results of distinct records of the caller's are part of what a lookup of them adds up. */
  lemma {:induction false} TotalWithinLookup(results: map<Id, Attempt>, states: map<Id, Attempt>, events: seq<Event>)
    requires Distinct(events) && results.Keys <= Ids(events)
    requires forall id :: id in results ==> id in states && states[id] == results[id]
    ensures TotalBytes(results) <= LookupBytes(states, IdsOf(events))
  {
    if events != [] {
      var n := |events| - 1;
      var front, last := events[..n], events[n].id;
      IdsWithoutLast(events);
      IdsWithLast(events);
      TotalWithinLookup(results - {last}, states, front);
      if last in results {
        SumSplit(results, StoredBytes, last);
      } else {
        assert results - {last} == results;
      }
    } else {
      assert results == map[];
    }
  }

  /** A record's answer is good exactly if it makes a ready result that the store takes. */
  lemma WellMeansReady(never: seq<Event>, env: Env, n: nat)
    requires CleanRun(env.polls, n, TopicFor(never)) && Distinct(never)
    ensures HarvestOf(never, env, n).Keys == Ids(never)
    ensures AnswersAll(env.polls, n, never) <==>
      forall id :: id in HarvestOf(never, env, n) ==>
        HarvestOf(never, env, n)[id].Ready? && StorableAttempt(HarvestOf(never, env, n)[id])
  {
    var answers, harvest := Answers(env.polls[..n - 1]), HarvestOf(never, env, n);
    forall k | 0 <= k < |never|
      ensures never[k].id in harvest
      ensures AnswersWell(answers, never[k]) <==>
        harvest[never[k].id].Ready? && StorableAttempt(harvest[never[k].id])
    {
      assert never[k].id in Ids(never);
      HarvestMeaning(never, answers, env.stderr, env.quote, k);
    }
    forall id | id in harvest ensures exists k :: 0 <= k < |never| && never[k].id == id {
      assert id in Ids(never);
    }
  }

  lemma ReadyAfterHarvest(before: map<Id, Attempt>, events: seq<Event>, harvest: map<Id, Attempt>)
    requires !AnySpoiled(before, events) && harvest.Keys == Ids(Unseen(before, events))
    ensures AllReady(before + harvest, events) <==> forall id :: id in harvest ==> harvest[id].Ready?
  {
    var never := Unseen(before, events);
    UnseenMembers(before, events);
    forall k | 0 <= k < |events|
      ensures if events[k].id in before then before[events[k].id].Ready? else events[k].id in harvest
    {
      assert events[k] in events && !Spoiled(StateOf(before, events[k].id));
      if events[k].id !in before {
        var j :| 0 <= j < |never| && never[j] == events[k];
        assert never[j].id in Ids(never);
      }
    }
    UnseenIdsAreNew(before, events);
    forall id | id in harvest ensures exists k :: 0 <= k < |events| && events[k].id == id {
      var j :| 0 <= j < |never| && never[j].id == id;
      assert never[j] in never;
      var k :| 0 <= k < |events| && events[k] == never[j];
    }
  }

  lemma UnseenIdsAreNew(before: map<Id, Attempt>, events: seq<Event>)
    ensures Ids(Unseen(before, events)) !! before.Keys && Ids(Unseen(before, events)) <= Ids(events)
  {
    var never := Unseen(before, events);
    UnseenMembers(before, events);
    forall id | id in Ids(never) ensures id !in before && id in Ids(events) {
      var j :| 0 <= j < |never| && never[j].id == id;
      assert never[j] in never;
      var k :| 0 <= k < |events| && events[k] == never[j];
    }
  }

  /** Within the result limit the store takes the results and gives them back. */
  lemma ResultLimitSuffices(before: map<Id, Attempt>, events: seq<Event>, harvest: map<Id, Attempt>)
    requires Distinct(events) && harvest.Keys == Ids(Unseen(before, events))
    requires forall id :: id in harvest ==> StorableAttempt(harvest[id])
    requires FinalSize(before + harvest, events) <= MAX_RESULT_BYTES
    ensures Storable(harvest) && LookupBytes(before, IdsOf(events)) <= MAX_BATCH_BYTES
  {
    UnseenIdsAreNew(before, events);
    TotalWithinLookup(harvest, before + harvest, events);
    LookupGrows(before, harvest, IdsOf(events));
  }

  lemma ReservedThenHarvested(before: map<Id, Attempt>, token: Token, harvest: map<Id, Attempt>)
    ensures before + ReservedBy(token, harvest.Keys) + harvest == before + harvest
  {
  }

  /** What `Execute` knows after the batch. */
  ghost predicate BatchRan(before: map<Id, Attempt>, token: Token, after: map<Id, Attempt>, capacity: nat,
        never: seq<Event>, env: Env, outcome: Result<BatchOutcome, RunnerError>)
  {
    && (outcome.Ok? && !Unhindered(before, capacity, never, env) ==> NothingEarned(before, after))
    && (Unhindered(before, capacity, never, env) ==> RunsExactly(before, token, after, never, env, outcome))
  }

  predicate Clean(outcome: Result<BatchOutcome, RunnerError>) {
    outcome.Ok? && outcome.value.diagnostics == []
  }

  lemma SuccessIsReached(before: map<Id, Attempt>, token: Token, after: map<Id, Attempt>, capacity: nat,
        events: seq<Event>, world: World, outcome: Result<BatchOutcome, RunnerError>)
    requires BatchRan(before, token, after, capacity, Unseen(before, events), world.batch, outcome)
    requires Succeeds(before, capacity, events, world) && Unseen(before, events) != []
    ensures Clean(outcome) && AllReady(after, events) && FinalSize(after, events) <= MAX_RESULT_BYTES
  {
    var never, env := Unseen(before, events), world.batch;
    var n :| Suffices(before, events, env, n);
    var harvest := HarvestOf(never, env, n);
    WellMeansReady(never, env, n);
    ResultLimitSuffices(before, events, harvest);
    assert Harvests(before + ReservedBy(token, Ids(never)), after, harvest, outcome);
    ReservedThenHarvested(before, token, harvest);
    ReadyAfterHarvest(before, events, harvest);
  }

  lemma SomethingEarned(before: map<Id, Attempt>, after: map<Id, Attempt>, events: seq<Event>)
    requires AllReady(after, events) && Unseen(before, events) != []
    ensures !NothingEarned(before, after)
  {
    var never := Unseen(before, events);
    UnseenMembers(before, events);
    assert never[0] in never;
    var k :| 0 <= k < |events| && events[k] == never[0];
    assert events[k].id in after && events[k].id !in before && after[events[k].id].Ready?;
  }

  lemma OnlySuccessIsReached(before: map<Id, Attempt>, token: Token, after: map<Id, Attempt>, capacity: nat,
        events: seq<Event>, world: World, outcome: Result<BatchOutcome, RunnerError>)
    requires BatchRan(before, token, after, capacity, Unseen(before, events), world.batch, outcome)
    requires Acceptable(events) && Quiet(world) && !AnySpoiled(before, events) && Unseen(before, events) != []
    requires Clean(outcome) && AllReady(after, events) && FinalSize(after, events) <= MAX_RESULT_BYTES
    ensures Succeeds(before, capacity, events, world)
  {
    var never, env := Unseen(before, events), world.batch;
    SomethingEarned(before, after, events);
    var n :| CleanRun(env.polls, n, TopicFor(never)) && Storable(HarvestOf(never, env, n));
    var harvest := HarvestOf(never, env, n);
    assert Harvests(before + ReservedBy(token, Ids(never)), after, harvest, outcome);
    WellMeansReady(never, env, n);
    ReservedThenHarvested(before, token, harvest);
    ReadyAfterHarvest(before, events, harvest);
    assert Suffices(before, events, env, n);
  }

  lemma SuccessFitsLookup(before: map<Id, Attempt>, capacity: nat, events: seq<Event>, world: World)
    requires Succeeds(before, capacity, events, world)
    ensures LookupBytes(before, IdsOf(events)) <= MAX_BATCH_BYTES
  {
    var never, env := Unseen(before, events), world.batch;
    if never != [] {
      var n :| Suffices(before, events, env, n);
      WellMeansReady(never, env, n);
      ResultLimitSuffices(before, events, HarvestOf(never, env, n));
    }
  }

  /** There are unattempted records, and nothing stops the execution before it runs them. */
  ghost predicate Offers(states: map<Id, Attempt>, events: seq<Event>, world: World) {
    Begins(states, events, world) && Unseen(states, events) != []
  }

  /** Nothing is found wrong before a batch would be run. */
  ghost predicate Begins(states: map<Id, Attempt>, events: seq<Event>, world: World) {
    && Acceptable(events) && !world.cancelled && !world.firstLookupFails
    && LookupBytes(states, IdsOf(events)) <= MAX_BATCH_BYTES && !AnySpoiled(states, events)
  }

  /** Why an execution stops before anything is run. */
  ghost predicate StopsWith(states: map<Id, Attempt>, events: seq<Event>, world: World, error: ExecutionError) {
    if world.cancelled then error == Cancelled
    else if !(0 < |events| <= MAX_RECORDS && Distinct(events)) then error == InvalidRecords
    else if InputSize(events) > MAX_INPUT_BYTES then error == InputTooLarge
    else if world.firstLookupFails || LookupBytes(states, IdsOf(events)) > MAX_BATCH_BYTES then error == StoreError
    else NamesSpoiled(states, events, error)
  }

  /** Everything up to the records never attempted. */
  method Begin(store: DurableStore, events: seq<Event>, world: World) returns (r: Result<seq<Event>, ExecutionError>)
    requires store.Valid()
    ensures r.Ok? <==> Begins(store.states, events, world)
    ensures r.Ok? ==> r.value == Unseen(store.states, events)
    ensures r.Err? ==> StopsWith(store.states, events, world, r.error)
  {
    if world.cancelled {
      return Err(Cancelled);
    }
    if |events| == 0 || |events| > MAX_RECORDS || !Distinct(events) {
      return Err(InvalidRecords);
    }
    var fits := ValidateInputSize(events);
    if !fits {
      return Err(InputTooLarge);
    }
    var found := store.Lookup(IdsOf(events), world.firstLookupFails);
    if found.Err? {
      return Err(StoreError);
    }
    r := NeverAttempted(found.value, events, store.states);
  }

  /** What an execution hands to the command: all unattempted records of the caller's, in order, or nothing. */
  ghost function Handed(states: map<Id, Attempt>, capacity: nat, events: seq<Event>, world: World): seq<Id> {
    if Runs(states, capacity, events, world) then IdsOf(Unseen(states, events)) else []
  }

  /** The execution gets as far as handing records to the command. */
  ghost predicate Runs(states: map<Id, Attempt>, capacity: nat, events: seq<Event>, world: World) {
    Offers(states, events, world) && HandsOver(states, capacity, Unseen(states, events), world.batch)
  }

  /** Every result is durable, or every record asked about stays reserved. */
  ghost predicate TakenOrReserved(before: map<Id, Attempt>, token: Token, after: map<Id, Attempt>, never: seq<Event>,
        harvest: map<Id, Attempt>, refused: bool)
  {
    if Storable(harvest) then after == before + harvest && !refused
    else after == before + ReservedBy(token, Ids(never)) && refused
  }

  /** What a valid conversation leaves in the store, and whether the store refused it. */
  ghost predicate ConversationSettles(before: map<Id, Attempt>, token: Token, after: map<Id, Attempt>,
        never: seq<Event>, env: Env, refused: bool)
  {
    forall n :: CleanRun(env.polls, n, TopicFor(never)) ==>
      TakenOrReserved(before, token, after, never, HarvestOf(never, env, n), refused)
  }

  lemma BatchSettles(before: map<Id, Attempt>, token: Token, after: map<Id, Attempt>, capacity: nat,
        never: seq<Event>, env: Env, outcome: Result<BatchOutcome, RunnerError>)
    requires BatchRan(before, token, after, capacity, never, env, outcome) && Unhindered(before, capacity, never, env)
    ensures ConversationSettles(before, token, after, never, env, outcome == Err(StoreFailed))
  {
    forall n | CleanRun(env.polls, n, TopicFor(never))
      ensures TakenOrReserved(before, token, after, never, HarvestOf(never, env, n), outcome == Err(StoreFailed))
    {
      var harvest := HarvestOf(never, env, n);
      WellMeansReady(never, env, n);
      assert Harvests(before + ReservedBy(token, Ids(never)), after, harvest, outcome);
      ReservedThenHarvested(before, token, harvest);
    }
  }

  /** What an execution makes of its batch's outcome. */
  method Conclude(store: DurableStore, events: seq<Event>, world: World, outcome: Result<BatchOutcome, RunnerError>)
    returns (r: Result<ExecutionResult, ExecutionError>)
    requires store.Valid()
    ensures r.Ok? ==> Complete(r.value.records, store.states, events) && r.value.diagnostics == []
    ensures r.Ok? <==>
      Clean(outcome) && !world.lastLookupFails && !world.cancelledLast && AllReady(store.states, events)
      && FinalSize(store.states, events) <= MAX_RESULT_BYTES
    ensures r == Err(Runner(StoreFailed)) <==> outcome == Err(StoreFailed)
    ensures r.Err? ==> ConcludesWith(store.states, events, world, outcome, r.error)
  {
    if outcome.Err? {
      return Err(Runner(outcome.error));
    }
    if |outcome.value.diagnostics| > 0 {
      return Err(Protocol(NoteText(outcome.value.diagnostics)));
    }
    r := Finish(store, events, [], world);
  }

  /** The runner's error, the diagnostics of its batch, or why the results cannot be returned. */
  ghost predicate ConcludesWith(states: map<Id, Attempt>, events: seq<Event>, world: World,
        outcome: Result<BatchOutcome, RunnerError>, error: ExecutionError)
  {
    if outcome.Err? then error == Runner(outcome.error)
    else if outcome.value.diagnostics != [] then error == Protocol(NoteText(outcome.value.diagnostics))
    else EndsWith(states, events, world, error)
  }

  /** The rest of an execution that has unattempted records. */
  method ExecuteNever(store: DurableStore, events: seq<Event>, never: seq<Event>, world: World)
    returns (r: Result<ExecutionResult, ExecutionError>)
    requires store.Valid() && Offers(store.states, events, world) && never == Unseen(store.states, events)
    modifies store`states, store`batches, store`nextToken, store`delivered
    ensures store.Valid() && Preserves(old(store.states), store.states)
    ensures EarnedHere(old(store.states), store.states, events, never, world.batch.polls)
    ensures store.delivered == old(store.delivered)
      + if old(HandsOver(store.states, store.capacity, never, world.batch)) then IdsOf(never) else []
    ensures !old(HandsOver(store.states, store.capacity, never, world.batch)) ==>
      NothingEarned(old(store.states), store.states)
    ensures r.Ok? ==> Complete(r.value.records, store.states, events) && r.value.diagnostics == []
    ensures r.Ok? <==> old(Succeeds(store.states, store.capacity, events, world))
    ensures old(Unhindered(store.states, store.capacity, never, world.batch)) ==>
      ConversationSettles(old(store.states), old(store.nextToken), store.states, never, world.batch,
                          r == Err(Runner(StoreFailed)))
    ensures r.Err? ==> exists outcome :: ConcludesWith(store.states, events, world, outcome, r.error)
  {
    ghost var before, token := store.states, store.nextToken;
    UnseenMembers(before, events);
    var outcome := RunNever(store, events, never, world.batch);
    ExecutionSettles(before, token, store.states, store.capacity, events, world, outcome);
    r := Conclude(store, events, world, outcome);
  }

  /** Both directions of what an execution comes to, once its batch has run. */
  lemma ExecutionSettles(before: map<Id, Attempt>, token: Token, after: map<Id, Attempt>, capacity: nat,
        events: seq<Event>, world: World, outcome: Result<BatchOutcome, RunnerError>)
    requires BatchRan(before, token, after, capacity, Unseen(before, events), world.batch, outcome)
    requires Offers(before, events, world)
    ensures Succeeds(before, capacity, events, world) <==>
      Clean(outcome) && Quiet(world) && AllReady(after, events) && FinalSize(after, events) <= MAX_RESULT_BYTES
    ensures Unhindered(before, capacity, Unseen(before, events), world.batch) ==>
      ConversationSettles(before, token, after, Unseen(before, events), world.batch, outcome == Err(StoreFailed))
  {
    var never, env := Unseen(before, events), world.batch;
    if Succeeds(before, capacity, events, world) {
      SuccessIsReached(before, token, after, capacity, events, world, outcome);
    }
    if Clean(outcome) && Quiet(world) && AllReady(after, events) && FinalSize(after, events) <= MAX_RESULT_BYTES {
      OnlySuccessIsReached(before, token, after, capacity, events, world, outcome);
    }
    if Unhindered(before, capacity, never, env) {
      BatchSettles(before, token, after, capacity, never, env, outcome);
    }
  }

  lemma ReadyMeansSuccess(states: map<Id, Attempt>, capacity: nat, events: seq<Event>, world: World)
    requires Begins(states, events, world) && Unseen(states, events) == []
    ensures AllReady(states, events)
    ensures Succeeds(states, capacity, events, world) <==>
      !world.lastLookupFails && !world.cancelledLast && FinalSize(states, events) <= MAX_RESULT_BYTES
  {
    NothingUnseen(states, events);
  }

  lemma NothingRan(states: map<Id, Attempt>, capacity: nat, events: seq<Event>, world: World)
    requires Unseen(states, events) == []
    ensures Preserves(states, states) && NothingEarned(states, states)
    ensures EarnedHere(states, states, events, [], world.batch.polls)
    ensures !Runs(states, capacity, events, world)
  {
  }

  /** An execution all of whose records are ready already. */
  method ExecuteReady(store: DurableStore, events: seq<Event>, world: World)
    returns (r: Result<ExecutionResult, ExecutionError>)
    requires store.Valid() && Begins(store.states, events, world) && Unseen(store.states, events) == []
    ensures r.Ok? ==> Complete(r.value.records, store.states, events) && r.value.diagnostics == []
    ensures r.Ok? <==> Succeeds(store.states, store.capacity, events, world)
    ensures r.Err? ==> EndsWith(store.states, events, world, r.error)
  {
    ReadyMeansSuccess(store.states, store.capacity, events, world);
    r := Finish(store, events, [], world);
  }

  /** An execution in which nothing was found wrong before its batch. */
  method ExecuteBegun(store: DurableStore, events: seq<Event>, never: seq<Event>, world: World)
    returns (r: Result<ExecutionResult, ExecutionError>)
    requires store.Valid() && Begins(store.states, events, world) && never == Unseen(store.states, events)
    modifies store`states, store`batches, store`nextToken, store`delivered
    ensures store.Valid() && Preserves(old(store.states), store.states)
    ensures EarnedHere(old(store.states), store.states, events, never, world.batch.polls)
    ensures store.delivered == old(store.delivered) + old(Handed(store.states, store.capacity, events, world))
    ensures !old(Runs(store.states, store.capacity, events, world)) ==>
      NothingEarned(old(store.states), store.states)
    ensures r.Ok? ==> Complete(r.value.records, store.states, events) && r.value.diagnostics == []
    ensures r.Ok? <==> old(Succeeds(store.states, store.capacity, events, world))
    ensures never == [] ==> store.states == old(store.states)
    ensures never != [] && old(Unhindered(store.states, store.capacity, never, world.batch)) ==>
      ConversationSettles(old(store.states), old(store.nextToken), store.states, never, world.batch,
                          r == Err(Runner(StoreFailed)))
    ensures never == [] && r.Err? ==> EndsWith(store.states, events, world, r.error)
    ensures never != [] && r.Err? ==> exists outcome :: ConcludesWith(store.states, events, world, outcome, r.error)
  {
    if never == [] {
      NothingRan(store.states, store.capacity, events, world);
      r := ExecuteReady(store, events, world);
    } else {
      r := ExecuteNever(store, events, never, world);
    }
  }

  /**
   * One execution. It succeeds exactly under `Succeeds`, with the stored result of every record in the
   * caller's order. A record once attempted is never offered again, and one spoiled attempt stops the
   * execution before anything is delivered. After a valid conversation whose results the store does not take,
   * every record asked about stays reserved.
   */
  method Execute(store: DurableStore, events: seq<Event>, world: World)
    returns (r: Result<ExecutionResult, ExecutionError>)
    requires store.Valid()
    modifies store`states, store`batches, store`nextToken, store`delivered
    ensures store.Valid() && Preserves(old(store.states), store.states)
    ensures EarnedHere(old(store.states), store.states, events, Unseen(old(store.states), events), world.batch.polls)
    ensures store.delivered == old(store.delivered)
      + old(Handed(store.states, store.capacity, events, world))
    ensures !old(Runs(store.states, store.capacity, events, world)) ==>
      NothingEarned(old(store.states), store.states)
    ensures r.Ok? ==> Complete(r.value.records, store.states, events) && r.value.diagnostics == []
    ensures r.Ok? <==> old(Succeeds(store.states, store.capacity, events, world))
    ensures AnySpoiled(old(store.states), events) ==> r.Err?
    ensures !old(Begins(store.states, events, world)) ==>
      r.Err? && StopsWith(old(store.states), events, world, r.error)
    ensures old(Offers(store.states, events, world)) && r.Err? ==>
      exists outcome :: ConcludesWith(store.states, events, world, outcome, r.error)
    ensures old(Begins(store.states, events, world) && !Offers(store.states, events, world)) && r.Err? ==>
      EndsWith(store.states, events, world, r.error)
    ensures !old(Offers(store.states, events, world)) ==>
      store.states == old(store.states) && store.delivered == old(store.delivered)
    ensures old(Offers(store.states, events, world)
                && Unhindered(store.states, store.capacity, Unseen(store.states, events), world.batch)) ==>
      ConversationSettles(old(store.states), old(store.nextToken), store.states, Unseen(old(store.states), events),
                          world.batch, r == Err(Runner(StoreFailed)))
  {
    ghost var before := store.states;
    if Succeeds(before, store.capacity, events, world) {
      SuccessFitsLookup(before, store.capacity, events, world);
    }
    var never := Begin(store, events, world);
    if never.Err? {
      return Err(never.error);
    }
    r := ExecuteBegun(store, events, never.value, world);
  }

  // --- whole histories ------------------------------------------------------------------------------

  datatype Job = Job(events: seq<Event>, world: World)

  /** What one execution hands to a command, and what it returns. */
  datatype Turn = Turn(delivery: seq<Id>, result: Result<ExecutionResult, ExecutionError>)

  function Deliveries(turns: seq<Turn>): seq<seq<Id>> {
    seq(|turns|, i requires 0 <= i < |turns| => turns[i].delivery)
  }

  /** The states a scope goes through, one more than its executions. */
  ghost predicate History(jobs: seq<Job>, capacity: nat, history: seq<map<Id, Attempt>>, turns: seq<Turn>) {
    && |history| == |jobs| + 1 && history[0] == map[] && |turns| == |jobs|
    && forall i {:trigger AddedAt(jobs, capacity, history, turns, i)} :: 0 <= i < |jobs| ==>
         AddedAt(jobs, capacity, history, turns, i)
  }

  ghost predicate AddedAt(jobs: seq<Job>, capacity: nat, history: seq<map<Id, Attempt>>, turns: seq<Turn>, i: nat)
    requires i < |jobs| && i + 1 < |history| && i < |turns|
  {
    AddedBy(jobs[i], capacity, history[i], history[i + 1], turns[i])
  }

  /**
   * An execution changes nothing it finds; what it adds is of its own records, and its results were earned in
   * its conversation, by records that it handed to the command.
   */
  ghost predicate AddedBy(job: Job, capacity: nat, before: map<Id, Attempt>, after: map<Id, Attempt>, turn: Turn) {
    && Preserves(before, after)
    && EarnedHere(before, after, job.events, Unseen(before, job.events), job.world.batch.polls)
    && ExactTurn(job, capacity, before, after, turn)
    && (forall id :: id in turn.delivery ==> id in after)
    && (forall id :: id in after && id !in before && after[id].Ready? ==> id in turn.delivery)
  }

  /** An execution hands over and returns what the state it finds calls for. */
  ghost predicate ExactTurn(job: Job, capacity: nat, before: map<Id, Attempt>, after: map<Id, Attempt>, turn: Turn) {
    && turn.delivery == Handed(before, capacity, job.events, job.world)
    && (turn.result.Ok? <==> Succeeds(before, capacity, job.events, job.world))
    && (turn.result.Ok? ==> Complete(turn.result.value.records, after, job.events))
  }

  /** The attempt is new in this execution; if ready, the record was handed over and validly answered with it. */
  ghost predicate EarnedBy(job: Job, before: map<Id, Attempt>, turn: Turn, id: Id, attempt: Attempt) {
    && id !in before && (attempt.Ready? ==> id in turn.delivery)
    && exists k :: 0 <= k < |job.events| && job.events[k].id == id
         && Earned(attempt, job.world.batch.polls, TopicFor(Unseen(before, job.events)), job.events[k])
  }

  /** Every attempt in a history has its origin in one earlier execution and is unchanged since. */
  lemma {:induction false} EveryAttemptHasItsJob(jobs: seq<Job>, capacity: nat, history: seq<map<Id, Attempt>>,
        turns: seq<Turn>, j: nat, id: Id)
    requires History(jobs, capacity, history, turns) && j <= |jobs| && id in history[j]
    ensures exists i :: 0 <= i < j && EarnedBy(jobs[i], history[i], turns[i], id, history[j][id])
  {
    assert AddedAt(jobs, capacity, history, turns, j - 1);
    if id in history[j - 1] {
      EveryAttemptHasItsJob(jobs, capacity, history, turns, j - 1, id);
    } else {
      var k :| 0 <= k < |jobs[j - 1].events| && jobs[j - 1].events[k].id == id;
      assert EarnedBy(jobs[j - 1], history[j - 1], turns[j - 1], id, history[j][id]);
    }
  }

  lemma {:induction false} HistoryPreserves(jobs: seq<Job>, capacity: nat, history: seq<map<Id, Attempt>>,
        turns: seq<Turn>, i: nat, j: nat)
    requires History(jobs, capacity, history, turns) && i <= j <= |jobs|
    ensures Preserves(history[i], history[j])
    decreases j
  {
    if i < j {
      HistoryPreserves(jobs, capacity, history, turns, i, j - 1);
      assert AddedAt(jobs, capacity, history, turns, j - 1);
      PreservesTransitive(history[i], history[j - 1], history[j]);
    }
  }

  lemma HistoryGrows(jobs: seq<Job>, capacity: nat, history: seq<map<Id, Attempt>>, turns: seq<Turn>, job: Job,
        after: map<Id, Attempt>, turn: Turn)
    requires History(jobs, capacity, history, turns) && AddedBy(job, capacity, history[|jobs|], after, turn)
    ensures History(jobs + [job], capacity, history + [after], turns + [turn])
  {
    var jobs', history', turns' := jobs + [job], history + [after], turns + [turn];
    forall i | 0 <= i < |jobs'| ensures AddedAt(jobs', capacity, history', turns', i) {
      if i < |jobs| {
        assert AddedAt(jobs, capacity, history, turns, i);
      }
    }
  }

  /** A new result is of a record that was handed over. */
  lemma ReadyWasHanded(before: map<Id, Attempt>, after: map<Id, Attempt>, events: seq<Event>, delivery: seq<Id>, id: Id)
    requires after.Keys <= before.Keys + Ids(events) && id in after && id !in before && after[id].Ready?
    requires NothingEarned(before, after) || delivery == IdsOf(Unseen(before, events))
    ensures id in delivery
  {
    var never := Unseen(before, events);
    UnseenMembers(before, events);
    var k :| 0 <= k < |events| && events[k].id == id;
    assert events[k] in events;
    var j :| 0 <= j < |never| && never[j] == events[k];
    assert IdsOf(never)[j] == id;
  }

  lemma HandedAreNew(states: map<Id, Attempt>, capacity: nat, events: seq<Event>, world: World)
    ensures forall id :: id in Handed(states, capacity, events, world) ==> id in Ids(events) && id !in states
  {
    var never := Unseen(states, events);
    UnseenIdsAreNew(states, events);
    forall id | id in IdsOf(never) ensures id in Ids(never) {
      var j :| 0 <= j < |never| && IdsOf(never)[j] == id;
      assert never[j].id == id;
    }
  }

  /** What the histories of all executions have in common. */
  lemma HistoryIsEarned(jobs: seq<Job>, capacity: nat, history: seq<map<Id, Attempt>>, turns: seq<Turn>)
    requires History(jobs, capacity, history, turns)
    ensures forall i, j :: 0 <= i <= j <= |jobs| ==> Preserves(history[i], history[j])
    ensures forall i, id :: 0 <= i < |jobs| && id in turns[i].delivery ==>
      id in Ids(jobs[i].events) && id !in history[i] && id in history[i + 1]
    ensures forall j, id :: 0 <= j <= |jobs| && id in history[j] ==>
      exists i :: 0 <= i < j && EarnedBy(jobs[i], history[i], turns[i], id, history[j][id])
  {
    forall i, j | 0 <= i <= j <= |jobs| ensures Preserves(history[i], history[j]) {
      HistoryPreserves(jobs, capacity, history, turns, i, j);
    }
    forall i, id | 0 <= i < |jobs| && id in turns[i].delivery
      ensures id in Ids(jobs[i].events) && id !in history[i] && id in history[i + 1]
    {
      assert AddedAt(jobs, capacity, history, turns, i);
      HandedAreNew(history[i], capacity, jobs[i].events, jobs[i].world);
    }
    forall j, id | 0 <= j <= |jobs| && id in history[j]
      ensures exists i :: 0 <= i < j && EarnedBy(jobs[i], history[i], turns[i], id, history[j][id])
    {
      EveryAttemptHasItsJob(jobs, capacity, history, turns, j, id);
    }
  }

  lemma TurnsAreExact(jobs: seq<Job>, capacity: nat, history: seq<map<Id, Attempt>>, turns: seq<Turn>)
    requires History(jobs, capacity, history, turns)
    ensures forall i {:trigger jobs[i]} :: 0 <= i < |jobs| ==>
      ExactTurn(jobs[i], capacity, history[i], history[i + 1], turns[i])
  {
    forall i {:trigger jobs[i]} | 0 <= i < |jobs|
      ensures ExactTurn(jobs[i], capacity, history[i], history[i + 1], turns[i])
    {
      assert AddedAt(jobs, capacity, history, turns, i);
    }
  }

  /** One execution of a history. */
  method RunOne(store: DurableStore, job: Job) returns (turn: Turn)
    requires store.Valid()
    modifies store`states, store`batches, store`nextToken, store`delivered
    ensures store.Valid()
    ensures store.delivered == old(store.delivered) + turn.delivery
    ensures AddedBy(job, store.capacity, old(store.states), store.states, turn)
  {
    var before, log := store.states, store.delivered;
    var result := Execute(store, job.events, job.world);
    turn := Turn(store.delivered[|log|..], result);
    forall id | id in store.states && id !in before && store.states[id].Ready? ensures id in turn.delivery {
      ReadyWasHanded(before, store.states, job.events, turn.delivery, id);
    }
    forall id | id in turn.delivery ensures id in store.states {
      assert id in store.delivered;
    }
  }

  /** The history goes on from the store's state, and holds all that was handed to a command. */
  ghost predicate Recorded(store: DurableStore, jobs: seq<Job>, history: seq<map<Id, Attempt>>, turns: seq<Turn>)
    reads store
  {
    && History(jobs, store.capacity, history, turns) && Within(history, store.capacity)
    && history[|jobs|] == store.states && Concat(Deliveries(turns)) == store.delivered
  }

  lemma RecordGrows(jobs: seq<Job>, history: seq<map<Id, Attempt>>, turns: seq<Turn>, job: Job, turn: Turn,
        log: seq<Id>, store: DurableStore)
    requires History(jobs, store.capacity, history, turns) && Within(history, store.capacity) && store.Valid()
    requires Concat(Deliveries(turns)) == log && store.delivered == log + turn.delivery
    requires AddedBy(job, store.capacity, history[|jobs|], store.states, turn)
    ensures Recorded(store, jobs + [job], history + [store.states], turns + [turn])
  {
    HistoryGrows(jobs, store.capacity, history, turns, job, store.states, turn);
    ConcatGrows(Deliveries(turns), turn.delivery);
    assert Deliveries(turns + [turn]) == Deliveries(turns) + [turn.delivery];
  }

  /** One execution, added to the record. */
  method RunNext(store: DurableStore, ghost jobs: seq<Job>, job: Job, history: seq<map<Id, Attempt>>, turns: seq<Turn>)
    returns (history': seq<map<Id, Attempt>>, turns': seq<Turn>)
    requires store.Valid() && Recorded(store, jobs, history, turns)
    modifies store`states, store`batches, store`nextToken, store`delivered
    ensures store.Valid() && Recorded(store, jobs + [job], history', turns')
  {
    ghost var log := store.delivered;
    var turn := RunOne(store, job);
    RecordGrows(jobs, history, turns, job, turn, log, store);
    history', turns' := history + [store.states], turns + [turn];
  }

  method RunJobs(capacity: nat, jobs: seq<Job>) returns (turns: seq<Turn>, history: seq<map<Id, Attempt>>)
    ensures History(jobs, capacity, history, turns)
    ensures NoDuplicates(Concat(Deliveries(turns))) && Within(history, capacity)
  {
    var store := new DurableStore(capacity);
    history, turns := [store.states], [];
    for n := 0 to |jobs|
      invariant fresh(store) && store.Valid() && store.capacity == capacity
      invariant Recorded(store, jobs[..n], history, turns)
    {
      history, turns := RunNext(store, jobs[..n], jobs[n], history, turns);
      assert jobs[..n + 1] == jobs[..n] + [jobs[n]];
    }
    FullPrefix(jobs);
  }

  ghost predicate Within(history: seq<map<Id, Attempt>>, capacity: nat) {
    forall i :: 0 <= i < |history| ==> |history[i]| <= capacity
  }

  /**
   * Any number of executions in one scope, whatever breaks: every record is written to a command
   * at most once, by an execution that found it unreserved and reserved it; attempts never exceed
   * the capacity; no state is ever changed by a later execution; and every ready result was
   * earned in the conversation of one execution, by a record it had handed over. Each execution hands over
   * and returns exactly what the state it found calls for.
   */
  method RunAll(capacity: nat, jobs: seq<Job>) returns (turns: seq<Turn>, history: seq<map<Id, Attempt>>)
    ensures |history| == |jobs| + 1 && history[0] == map[] && |turns| == |jobs|
    ensures NoDuplicates(Concat(Deliveries(turns)))
    ensures forall i, id :: 0 <= i < |jobs| && id in turns[i].delivery ==>
      id in Ids(jobs[i].events) && id !in history[i] && id in history[i + 1]
    ensures forall i :: 0 <= i <= |jobs| ==> |history[i]| <= capacity
    ensures forall i, j :: 0 <= i <= j <= |jobs| ==> Preserves(history[i], history[j])
    ensures forall j, id :: 0 <= j <= |jobs| && id in history[j] ==>
      exists i :: 0 <= i < j && EarnedBy(jobs[i], history[i], turns[i], id, history[j][id])
    ensures forall i {:trigger jobs[i]} :: 0 <= i < |jobs| ==>
      ExactTurn(jobs[i], capacity, history[i], history[i + 1], turns[i])
  {
    turns, history := RunJobs(capacity, jobs);
    HistoryIsEarned(jobs, capacity, history, turns);
    TurnsAreExact(jobs, capacity, history, turns);
  }

  lemma PreservesTransitive(a: map<Id, Attempt>, b: map<Id, Attempt>, c: map<Id, Attempt>)
    requires Preserves(a, b) && Preserves(b, c)
    ensures Preserves(a, c)
  {
  }
}
