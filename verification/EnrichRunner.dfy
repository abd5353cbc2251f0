/**
 * The batch runner: which records of a batch reach the command, and what becomes durable. Every
 * outside event, from a broken store call to a late deadline, is a field of `Env`.
 */
module EnrichRunner {
  import opened Prelude
  import opened AttemptStore
  import opened EnrichBatch

  datatype Limits = Limits(maxEvents: nat, maxOutstanding: nat, maxOutputBytes: nat)

  datatype RunnerError = RevisionMismatch | BatchLimit | StoreFailed

  datatype Env = Env(
    cancelledFirst: bool,
    lookupFails: bool,
    inputTooLarge: bool,
    spawnFails: Option<string>,
    startedLate: bool,
    reserving: Fault,
    cancelledReserving: bool,
    lateReserving: bool,
    writerGone: bool,
    polls: seq<Poll>,
    stderr: string,
    quote: Quote,
    persisting: Fault)

  /** The batch is turned down after its records were reserved. */
  predicate Stopped(env: Env) {
    env.cancelledReserving || env.lateReserving || env.writerGone
  }

  /** Nothing outside the conversation goes wrong once the records are reserved. */
  predicate Smooth(env: Env) {
    !Stopped(env) && env.persisting.Sound?
  }

  // --- what is written to the command -----------------------------------------------------------

  /** The records of `ids`, in the caller's order. */
  function Delivery(events: seq<Event>, ids: set<Id>): seq<Id> {
    if events == [] then []
    else
      var front, last := Delivery(events[..|events| - 1], ids), events[|events| - 1].id;
      if last in ids then front + [last] else front
  }

  lemma {:induction false} DeliveryMembers(events: seq<Event>, ids: set<Id>)
    ensures forall id :: id in Delivery(events, ids) ==> id in ids && id in Ids(events)
    ensures forall k :: 0 <= k < |events| && events[k].id in ids ==> events[k].id in Delivery(events, ids)
  {
    if events != [] {
      var front := events[..|events| - 1];
      DeliveryMembers(front, ids);
      forall id | id in Ids(front) ensures id in Ids(events) {
        var i :| 0 <= i < |front| && front[i].id == id;
        assert events[i].id == id;
      }
      assert events[|events| - 1].id in Ids(events);
    }
  }

  lemma {:induction false} DeliveryOnce(events: seq<Event>, ids: set<Id>)
    requires Distinct(events)
    ensures NoDuplicates(Delivery(events, ids))
  {
    if events != [] {
      var front := events[..|events| - 1];
      DeliveryOnce(front, ids);
      DeliveryMembers(front, ids);
      forall id | id in Ids(front) ensures id != events[|events| - 1].id {
        var i :| 0 <= i < |front| && front[i].id == id;
        assert events[i].id == id;
      }
    }
  }

  /** The positions of the admitted records. */
  function Positions(events: seq<Event>, ids: set<Id>): seq<nat> {
    if events == [] then []
    else
      var n := |events| - 1;
      Positions(events[..n], ids) + if events[n].id in ids then [n] else []
  }

  lemma {:induction false} PositionsAreAdmitted(events: seq<Event>, ids: set<Id>, k: nat)
    ensures k in Positions(events, ids) <==> k < |events| && events[k].id in ids
  {
    if events != [] {
      PositionsAreAdmitted(events[..|events| - 1], ids, k);
    }
  }

  /** The payload is the admitted records in the caller's order. */
  lemma {:induction false} DeliveryInOrder(events: seq<Event>, ids: set<Id>)
    ensures Picked(Delivery(events, ids), IdsOf(events), Positions(events, ids))
  {
    if events != [] {
      var n := |events| - 1;
      DeliveryInOrder(events[..n], ids);
      IdsOfNext(events);
      PickedNext(Delivery(events[..n], ids), IdsOf(events[..n]), Positions(events[..n], ids), events[n].id,
                 events[n].id in ids);
    }
  }

  /** A batch of admitted records only is handed over as it is. */
  lemma {:induction false} AllAreDelivered(events: seq<Event>, ids: set<Id>)
    requires forall k :: 0 <= k < |events| ==> events[k].id in ids
    ensures Delivery(events, ids) == IdsOf(events)
  {
    if events != [] {
      AllAreDelivered(events[..|events| - 1], ids);
      IdsOfNext(events);
    }
  }

  lemma IdsOfNext(events: seq<Event>)
    requires events != []
    ensures IdsOf(events) == IdsOf(events[..|events| - 1]) + [events[|events| - 1].id]
  {
  }

  function IdsOf(events: seq<Event>): seq<Id> {
    seq(|events|, k requires 0 <= k < |events| => events[k].id)
  }

  /** The set of admitted records only filters; it does not order the payload. */
  method Payload(events: seq<Event>, ids: set<Id>) returns (payload: seq<Id>)
    ensures payload == Delivery(events, ids)
  {
    payload := [];
    for k := 0 to |events|
      invariant payload == Delivery(events[..k], ids)
    {
      assert events[..k + 1][..k] == events[..k];
      if events[k].id in ids {
        payload := payload + [events[k].id];
      }
    }
    FullPrefix(events);
  }

  /** What the conversation of `n` polls makes of the records. */
  function HarvestOf(events: seq<Event>, env: Env, n: nat): map<Id, Attempt>
    requires 0 < n <= |env.polls|
  {
    Harvest(events, Answers(env.polls[..n - 1]), env.stderr, env.quote)
  }

  // --- durable outcome ------------------------------------------------------------------------------

  /** A durable result was earned in a valid conversation and names only fields of its own. */
  ghost predicate Earned(attempt: Attempt, polls: seq<Poll>, topic: Topic, event: Event) {
    attempt.Ready? ==> exists n :: EarnedAt(attempt, polls, n, topic, event)
  }

  ghost predicate EarnedAt(attempt: Attempt, polls: seq<Poll>, n: nat, topic: Topic, event: Event)
    requires attempt.Ready?
  {
    && CleanRun(polls, n, topic) && event.id in topic.asked && Allowed(event, attempt.fields)
    && Answers(polls[..n - 1])[event.id] == attempt.fields
  }

  /** The store takes the results of a reservation, all of them or none. */
  ghost predicate Taken(before: map<Id, Attempt>, after: map<Id, Attempt>, results: map<Id, Attempt>, fault: Fault,
        ok: bool)
  {
    && (ok <==> fault.Sound? && Storable(results))
    && after == if !fault.LostBefore? && Storable(results) then before + results else before
  }

  /** `persist_outcome` of the durable store. */
  method Persist(store: DurableStore, reservation: Reservation, indexes: map<Id, nat>, outcomes: seq<EventOutcome>,
        notes: seq<Diagnostic>, fault: Fault)
    returns (ok: bool)
    requires store.Valid() && store.Open(reservation) && Covers(indexes, outcomes, reservation.ids)
    modifies store`states, store`batches
    ensures store.Valid() && store.states.Keys == old(store.states.Keys)
    ensures forall id :: id in old(store.states) && old(store.states)[id] != Reserved(reservation.token)
                     ==> store.states[id] == old(store.states)[id]
    ensures Taken(old(store.states), store.states, Results(indexes, outcomes, reservation.ids, notes), fault, ok)
  {
    ok := store.Complete(reservation, Results(indexes, outcomes, reservation.ids, notes), fault);
  }

  /** What may have become of the reserved records, whatever happened. */
  ghost predicate Outcome(before: map<Id, Attempt>, after: map<Id, Attempt>, ids: set<Id>, polls: seq<Poll>,
        topic: Topic, indexes: map<Id, nat>, first: seq<EventOutcome>)
    requires Covers(indexes, first, ids)
  {
    && after.Keys == before.Keys
    && (forall id :: id in before && id !in ids ==> after[id] == before[id])
    && (forall id :: id in before && id in ids ==> Earned(after[id], polls, topic, first[indexes[id]].event))
  }

  lemma NothingStored(before: map<Id, Attempt>, ids: set<Id>, polls: seq<Poll>, topic: Topic,
        indexes: map<Id, nat>, first: seq<EventOutcome>)
    requires Covers(indexes, first, ids)
    requires forall id :: id in before && id in ids ==> before[id].Reserved?
    ensures Outcome(before, before, ids, polls, topic, indexes, first)
  {
  }

  lemma FailuresStored(before: map<Id, Attempt>, results: map<Id, Attempt>, ids: set<Id>, polls: seq<Poll>,
        topic: Topic, indexes: map<Id, nat>, first: seq<EventOutcome>)
    requires Covers(indexes, first, ids) && ids <= before.Keys && results.Keys == ids
    requires forall id :: id in ids ==> results[id].Failed?
    ensures Outcome(before, before + results, ids, polls, topic, indexes, first)
  {
    assert (before + results).Keys == before.Keys;
  }

  ghost predicate Reservable(store: DurableStore, reservation: Reservation)
    reads store
  {
    && store.Valid() && store.Open(reservation)
    && forall id :: id in reservation.ids ==>
         id in store.states && store.states[id] == Reserved(reservation.token) && id !in store.delivered
  }

  ghost predicate Untouched(indexes: map<Id, nat>, first: seq<EventOutcome>, ids: set<Id>) {
    Covers(indexes, first, ids) && forall id :: id in ids ==> first[indexes[id]] == Unanswered(first[indexes[id]].event)
  }

  lemma MarkedKeepsIndexes(indexes: map<Id, nat>, a: seq<EventOutcome>, b: seq<EventOutcome>)
    requires Indexed(indexes, a) && Events(a) == Events(b)
    ensures Indexed(indexes, b)
  {
    assert |a| == |Events(a)| == |Events(b)| == |b|;
    forall k: nat | k < |b| ensures b[k].event == a[k].event {
      assert Events(a)[k] == Events(b)[k];
    }
  }

  lemma WithStderrKeepsEvents(outcomes: seq<EventOutcome>, stderr: string)
    ensures Events(WithStderr(outcomes, stderr)) == Events(outcomes)
  {
  }

  lemma AnswersStored(before: map<Id, Attempt>, ids: set<Id>, polls: seq<Poll>, n: nat, topic: Topic,
        indexes: map<Id, nat>, first: seq<EventOutcome>, env: Env)
    requires Untouched(indexes, first, ids) && ids <= before.Keys && ids == topic.asked && CleanRun(polls, n, topic)
    ensures var harvest := Harvest(Events(first), Answers(polls[..n - 1]), env.stderr, env.quote);
      && harvest.Keys == ids && Outcome(before, before + harvest, ids, polls, topic, indexes, first)
  {
    var answers, events := Answers(polls[..n - 1]), Events(first);
    var harvest := Harvest(events, answers, env.stderr, env.quote);
    IndexedEvents(indexes, first);
    assert (before + harvest).Keys == before.Keys;
    forall id | id in before && id in ids
      ensures Earned((before + harvest)[id], polls, topic, first[indexes[id]].event)
    {
      assert events[indexes[id]].id == id;
      HarvestMeaning(events, answers, env.stderr, env.quote, indexes[id]);
      if harvest[id].Ready? {
        assert EarnedAt(harvest[id], polls, n, topic, first[indexes[id]].event);
      }
    }
  }

  /** The whole batch was turned down after the records had been reserved. */
  method PersistStopped(store: DurableStore, reservation: Reservation, topic: Topic, indexes: map<Id, nat>,
        first: seq<EventOutcome>, marking: set<Id>, note: Diagnostic, env: Env)
    returns (ok: bool, outcomes: seq<EventOutcome>)
    requires Reservable(store, reservation) && Untouched(indexes, first, reservation.ids)
    modifies store`states, store`batches
    ensures store.Valid() && Events(outcomes) == Events(first) && Indexed(indexes, outcomes)
    ensures Outcome(old(store.states), store.states, reservation.ids, env.polls, topic, indexes, first)
    ensures Taken(old(store.states), store.states, Results(indexes, outcomes, reservation.ids, []), env.persisting, ok)
    ensures forall id :: id in reservation.ids ==> !store.states[id].Ready?
  {
    ghost var before := store.states;
    outcomes := Mark(first, marking, note);
    MarkedKeepsIndexes(indexes, first, outcomes);
    NothingStored(before, reservation.ids, env.polls, topic, indexes, first);
    FailuresStored(before, Results(indexes, outcomes, reservation.ids, []), reservation.ids, env.polls, topic,
                   indexes, first);
    ok := Persist(store, reservation, indexes, outcomes, [], env.persisting);
  }

  /** The end of a conversation, valid or not, becomes the durable outcome if the store takes it. */
  method PersistConversation(store: DurableStore, reservation: Reservation, topic: Topic, indexes: map<Id, nat>,
        ghost first: seq<EventOutcome>, outcomes: seq<EventOutcome>, notes: seq<Diagnostic>, ghost heard: nat, env: Env)
    returns (ok: bool, noted: seq<EventOutcome>)
    requires store.Valid() && store.Open(reservation) && Untouched(indexes, first, reservation.ids)
    requires forall id :: id in reservation.ids ==>
      id in store.states && store.states[id] == Reserved(reservation.token)
    requires topic.asked == reservation.ids && Events(outcomes) == Events(first)
    requires notes != [] ==> forall n :: !CleanRun(env.polls, n, topic)
    requires notes == [] ==>
      CleanRun(env.polls, heard, topic) && outcomes == Settled(first, Answers(env.polls[..heard - 1]), env.quote)
    modifies store`states, store`batches
    ensures store.Valid() && Events(noted) == Events(first) && Indexed(indexes, noted)
    ensures Outcome(old(store.states), store.states, reservation.ids, env.polls, topic, indexes, first)
    ensures Taken(old(store.states), store.states, Results(indexes, noted, reservation.ids, notes), env.persisting, ok)
    ensures notes == [] ==>
      Results(indexes, noted, reservation.ids, notes) == HarvestOf(Events(first), env, heard)
  {
    ghost var before := store.states;
    noted := WithStderr(outcomes, env.stderr);
    WithStderrKeepsEvents(outcomes, env.stderr);
    MarkedKeepsIndexes(indexes, first, noted);
    NothingStored(before, reservation.ids, env.polls, topic, indexes, first);
    if notes == [] {
      CleanResults(indexes, first, Answers(env.polls[..heard - 1]), env.stderr, env.quote);
      AnswersStored(before, reservation.ids, env.polls, heard, topic, indexes, first, env);
    } else {
      FailuresStored(before, Results(indexes, noted, reservation.ids, notes), reservation.ids, env.polls, topic,
                     indexes, first);
    }
    ok := Persist(store, reservation, indexes, noted, notes, env.persisting);
  }

  // --- admission ------------------------------------------------------------------------------------

  function Fresh(events: seq<Event>): seq<EventOutcome> {
    seq(|events|, k requires 0 <= k < |events| => Unanswered(events[k]))
  }

  lemma FreshEvents(events: seq<Event>)
    ensures Events(Fresh(events)) == events
  {
  }

  method BuildIndexes(events: seq<Event>) returns (indexes: map<Id, nat>, unique: bool)
    ensures unique <==> Distinct(events)
    ensures unique ==> Indexed(indexes, Fresh(events)) && indexes.Keys == Ids(events)
  {
    indexes, unique := map[], true;
    for k := 0 to |events|
      invariant forall id :: id in indexes ==> indexes[id] < k && events[indexes[id]].id == id
      invariant forall j: nat :: j < k ==> events[j].id in indexes && indexes[events[j].id] == j
    {
      if events[k].id in indexes {
        return indexes, false;
      }
      indexes := indexes[events[k].id := k];
    }
    forall id ensures id in indexes.Keys <==> id in Ids(events) {
      if id in Ids(events) {
        var i :| 0 <= i < |events| && events[i].id == id;
        assert events[i].id in indexes;
      }
    }
  }

  datatype Admission = Rejected(error: RunnerError) | Declined(reset: bool) | Admitted

  /** Nothing outside stops the batch before its records are reserved. */
  predicate Starts(env: Env) {
    !env.cancelledFirst && !env.lookupFails && !env.inputTooLarge && env.spawnFails.None? && !env.startedLate
  }

  /** Records never attempted before; everything else keeps the outcome it already has. */
  function Asked(events: seq<Event>, attempted: set<Id>): set<Id> {
    Ids(events) - attempted
  }

  predicate RoomFor(asked: set<Id>, attempted: set<Id>, capacity: nat) {
    asked != {} && |asked| <= capacity - |attempted|
  }

  lemma MarkedOthersStayUntouched(indexes: map<Id, nat>, events: seq<Event>, marking: set<Id>,
        note: Diagnostic, ids: set<Id>)
    requires Indexed(indexes, Fresh(events)) && ids <= indexes.Keys && ids !! marking
    ensures Untouched(indexes, Marked(Fresh(events), marking, note), ids)
  {
  }

  const ALREADY_ATTEMPTED :=
    Diagnose("already_attempted", "command result is already attempted and will not rerun")
  const LEDGER_FULL :=
    Diagnose("attempt_capacity", "attempt ledger is full; admission refused without eviction")
  const INPUT_TOO_LARGE := Diagnose("input_too_large", "serialized batch exceeds input byte limit")
  const STARTED_LATE := Diagnose("timeout", "command startup exceeded batch deadline")

  /** Everything the runner decides before it reserves the records. */
  method Admit(attempted: set<Id>, capacity: nat, events: seq<Event>, env: Env)
    returns (admission: Admission, indexes: map<Id, nat>, outcomes: seq<EventOutcome>, pending: set<Id>)
    ensures admission.Rejected? || Events(outcomes) == events
    ensures admission == Rejected(StoreFailed) ==> env.lookupFails
    ensures admission.Admitted? <==>
      Starts(env) && Distinct(events) && RoomFor(Asked(events, attempted), attempted, capacity)
    ensures admission.Admitted? ==>
      pending == Asked(events, attempted) && Untouched(indexes, outcomes, pending)
  {
    outcomes, indexes, pending := Fresh(events), map[], {};
    FreshEvents(events);
    var unique;
    indexes, unique := BuildIndexes(events);
    if !unique {
      return Rejected(BatchLimit), indexes, outcomes, pending;
    }
    if env.cancelledFirst {
      outcomes := Mark(outcomes, indexes.Keys, CANCELLED);
      return Declined(false), indexes, outcomes, pending;
    }
    if env.lookupFails {
      return Rejected(StoreFailed), indexes, outcomes, pending;
    }
    pending := indexes.Keys - attempted;
    MarkedOthersStayUntouched(indexes, events, indexes.Keys - pending, ALREADY_ATTEMPTED, pending);
    outcomes := Mark(outcomes, indexes.Keys - pending, ALREADY_ATTEMPTED);
    if |pending| > capacity - |attempted| {
      outcomes := Mark(outcomes, pending, LEDGER_FULL);
      return Declined(false), indexes, outcomes, pending;
    }
    if pending == {} {
      return Declined(false), indexes, outcomes, pending;
    }
    if env.inputTooLarge {
      outcomes := Mark(outcomes, pending, INPUT_TOO_LARGE);
      return Declined(false), indexes, outcomes, pending;
    }
    if env.spawnFails.Some? {
      outcomes := Mark(outcomes, indexes.Keys, Diagnose("spawn_error", env.spawnFails.value));
      return Declined(false), indexes, outcomes, pending;
    }
    if env.startedLate {
      outcomes := Mark(outcomes, indexes.Keys, STARTED_LATE);
      return Declined(true), indexes, outcomes, pending;
    }
    return Admitted, indexes, outcomes, pending;
  }

  predicate Grantable(store: DurableStore, ids: set<Id>)
    reads store
  {
    CanReserve(store.states.Keys, ids, store.capacity) && 0 < |ids| <= MAX_BATCH
  }

  lemma NoEffect(states: map<Id, Attempt>, events: seq<Event>, polls: seq<Poll>, topic: Topic)
    ensures BatchEffect(states, states, events, polls, topic)
  {
  }

  lemma AdmittedIsGrantable(store: DurableStore, events: seq<Event>)
    requires RoomFor(Asked(events, store.states.Keys), store.states.Keys, store.capacity)
    ensures Asked(events, store.states.Keys) !! store.states.Keys
    ensures |Asked(events, store.states.Keys)| <= MAX_BATCH ==> Grantable(store, Asked(events, store.states.Keys))
  {
  }

  /** After a valid conversation: its harvest is durable if the store takes it, and nothing is if not. */
  ghost predicate Harvests(reserved: map<Id, Attempt>, after: map<Id, Attempt>, harvest: map<Id, Attempt>,
        r: Result<BatchOutcome, RunnerError>)
  {
    if Storable(harvest) then r.Ok? && r.value.diagnostics == [] && after == reserved + harvest
    else r == Err(StoreFailed) && after == reserved
  }

  lemma GrantedIsReservable(store: DurableStore, reservation: Reservation, attempted: set<Id>)
    requires store.Valid() && store.Open(reservation) && attempted !! reservation.ids
    requires forall id :: id in store.delivered ==> id in attempted
    requires forall id :: id in reservation.ids ==>
      id in store.states && store.states[id] == Reserved(reservation.token)
    ensures Reservable(store, reservation)
  {
  }

  /** The effect of one batch on the store, told in terms of the caller's records. */
  ghost predicate BatchEffect(before: map<Id, Attempt>, after: map<Id, Attempt>, events: seq<Event>,
        polls: seq<Poll>, topic: Topic)
  {
    && (after.Keys == before.Keys || after.Keys == before.Keys + topic.asked)
    && (forall id :: id in before ==> id in after && after[id] == before[id])
    && (forall k :: 0 <= k < |events| && events[k].id !in before && events[k].id in after ==>
          Earned(after[events[k].id], polls, topic, events[k]))
  }

  lemma ReservedOnly(before: map<Id, Attempt>, after: map<Id, Attempt>, token: Token, ids: set<Id>,
        polls: seq<Poll>, topic: Topic, events: seq<Event>)
    requires after == before || after == before + ReservedBy(token, ids)
    requires ids !! before.Keys && ids == topic.asked
    ensures BatchEffect(before, after, events, polls, topic)
    ensures after != before ==> forall id :: id in ids ==> after[id] == Reserved(token)
  {
    assert (before + ReservedBy(token, ids)).Keys == before.Keys + ids;
  }

  lemma OutcomeForEvents(before: map<Id, Attempt>, reserved: map<Id, Attempt>, after: map<Id, Attempt>,
        polls: seq<Poll>, topic: Topic, indexes: map<Id, nat>, first: seq<EventOutcome>)
    requires Covers(indexes, first, topic.asked) && topic.asked !! before.Keys
    requires reserved.Keys == before.Keys + topic.asked
    requires forall id :: id in before ==> reserved[id] == before[id]
    requires Outcome(reserved, after, topic.asked, polls, topic, indexes, first)
    ensures BatchEffect(before, after, Events(first), polls, topic)
  {
    var events := Events(first);
    forall k | 0 <= k < |events| && events[k].id !in before && events[k].id in after
      ensures Earned(after[events[k].id], polls, topic, events[k])
    {
      assert first[k].event == events[k];
      assert indexes[first[k].event.id] == k;
    }
  }

  /** No record has a result that it did not have before. */
  ghost predicate NothingEarned(before: map<Id, Attempt>, after: map<Id, Attempt>) {
    forall id :: id in after && id !in before ==> !after[id].Ready?
  }

  const STDIN_CLOSED := Diagnose("process_exit", "command stdin closed")

  /** Why a batch is not delivered although its records are reserved. */
  function StopNote(env: Env): Diagnostic {
    if env.cancelledReserving then Diagnose("cancelled", "command enrichment cancelled after reservation")
    else Diagnose("timeout", "command enrichment timed out during attempt reservation")
  }

  /** What an admitted batch does to the ledger. */
  predicate GoneAhead(attempted: set<Id>, delivered: seq<Id>, attempted': set<Id>, delivered': seq<Id>,
        events: seq<Event>, env: Env)
  {
    && attempted' == attempted + Asked(events, attempted)
    && delivered' == delivered + if Stopped(env) then [] else Delivery(events, Asked(events, attempted))
  }

  /** Looking into the ledger never fails. */
  function Unfailing(env: Env): Env {
    env.(lookupFails := false)
  }

  predicate FewEnough(limits: Limits, events: seq<Event>) {
    |events| <= limits.maxEvents && |events| <= limits.maxOutstanding
  }

  class CommandEnricher {
    const revision: nat
    const limits: Limits
    var session: nat
    var running: bool

    constructor (revision: nat, limits: Limits)
      ensures this.revision == revision && this.limits == limits && session == 1 && !running
    {
      this.revision, this.limits, session, running := revision, limits, 1, false;
    }

    /** Kill the child, so that no later batch inherits its state. */
    method Reset()
      modifies this`running
      ensures !running
    {
      running := false;
    }

    /** The batch is not delivered although its records are reserved. */
    method TurnDown(store: DurableStore, reservation: Reservation, topic: Topic, indexes: map<Id, nat>,
          first: seq<EventOutcome>, env: Env)
      returns (r: Result<BatchOutcome, RunnerError>)
      requires Reservable(store, reservation) && Untouched(indexes, first, reservation.ids) && Stopped(env)
      modifies this`running, store`states, store`batches
      ensures store.Valid() && !running
      ensures Outcome(old(store.states), store.states, reservation.ids, env.polls, topic, indexes, first)
      ensures forall id :: id in reservation.ids ==> !store.states[id].Ready?
      ensures r.Ok? ==> Events(r.value.events) == Events(first) && Indexed(indexes, r.value.events)
      ensures r.Ok? ==>
        store.states == old(store.states) + Results(indexes, r.value.events, reservation.ids, r.value.diagnostics)
      ensures r.Err? ==> r == Err(StoreFailed) && (env.persisting.Sound? ==> store.states == old(store.states))
    {
      Reset();
      var ok, outcomes;
      if env.cancelledReserving || env.lateReserving {
        ok, outcomes := PersistStopped(store, reservation, topic, indexes, first, reservation.ids, StopNote(env), env);
      } else {
        ok, outcomes := PersistStopped(store, reservation, topic, indexes, first, indexes.Keys, STDIN_CLOSED, env);
      }
      return if ok then Ok(BatchOutcome(topic.session, topic.revision, outcomes, [])) else Err(StoreFailed);
    }

    /** From the granted reservation to the durable outcome. */
    method RunReserved(store: DurableStore, reservation: Reservation, topic: Topic, indexes: map<Id, nat>,
          first: seq<EventOutcome>, env: Env)
      returns (r: Result<BatchOutcome, RunnerError>)
      requires Reservable(store, reservation) && Untouched(indexes, first, reservation.ids)
      requires topic.asked == reservation.ids && Distinct(Events(first))
      modifies this`running, store`states, store`batches, store`delivered
      ensures store.Valid()
      ensures store.delivered ==
        old(store.delivered) + if Stopped(env) then [] else Delivery(Events(first), reservation.ids)
      ensures Stopped(env) ==> forall id :: id in reservation.ids && id in store.states ==> !store.states[id].Ready?
      ensures Outcome(old(store.states), store.states, reservation.ids, env.polls, topic, indexes, first)
      ensures r.Ok? ==> Events(r.value.events) == Events(first) && Indexed(indexes, r.value.events)
      ensures r.Ok? ==>
        store.states == old(store.states) + Results(indexes, r.value.events, reservation.ids, r.value.diagnostics)
      ensures r.Err? ==> r == Err(StoreFailed) && (env.persisting.Sound? ==> store.states == old(store.states))
      ensures r.Ok? && !Smooth(env) ==> forall id :: id in reservation.ids ==> !store.states[id].Ready?
      ensures Smooth(env) && r.Ok? && r.value.diagnostics == [] ==> exists n :: CleanRun(env.polls, n, topic)
      ensures Smooth(env) ==> forall n :: CleanRun(env.polls, n, topic) ==>
        Harvests(old(store.states), store.states, HarvestOf(Events(first), env, n), r)
      ensures Stopped(env) || r.Err? || r.value.diagnostics != [] ==> !running
    {
      if Stopped(env) {
        r := TurnDown(store, reservation, topic, indexes, first, env);
        return;
      }
      var ok, outcomes;
      var payload := Payload(Events(first), reservation.ids);
      DeliveryOnce(Events(first), reservation.ids);
      DeliveryMembers(Events(first), reservation.ids);
      store.Deliver(payload);
      var notes, poisoned, heard;
      outcomes, notes, poisoned, heard := Converse(env.polls, topic, indexes, first, env.quote);
      if poisoned {
        Reset();
      } else {
        forall n | CleanRun(env.polls, n, topic) ensures n == heard {
          CleanRunIsUnique(env.polls, n, heard, topic);
        }
      }
      var noted;
      ok, noted := PersistConversation(store, reservation, topic, indexes, first, outcomes, notes, heard, env);
      if !ok {
        Reset();
        return Err(StoreFailed);
      }
      return Ok(BatchOutcome(topic.session, topic.revision, noted, notes));
    }
  
    /** Admitted records are reserved first; whatever a failed reservation did, nothing is delivered. */
    method Offer(store: DurableStore, topic: Topic, indexes: map<Id, nat>, first: seq<EventOutcome>, env: Env)
      returns (r: Result<BatchOutcome, RunnerError>)
      requires store.Valid() && Untouched(indexes, first, topic.asked) && topic.asked !! store.states.Keys
      requires Distinct(Events(first))
      modifies this`running, store`states, store`batches, store`nextToken, store`delivered
      ensures store.Valid()
      ensures store.delivered == old(store.delivered)
        + if env.reserving.Sound? && !Stopped(env) && old(Grantable(store, topic.asked))
          then Delivery(Events(first), topic.asked) else []
      ensures !(env.reserving.Sound? && !Stopped(env) && old(Grantable(store, topic.asked))) ==>
        NothingEarned(old(store.states), store.states)
      ensures r.Err? || r.value.diagnostics != [] || Stopped(env) ==> !running
      ensures r.Ok? ==> Events(r.value.events) == Events(first)
      ensures BatchEffect(old(store.states), store.states, Events(first), env.polls, topic)
      ensures r.Ok? && !(Smooth(env) && env.reserving.Sound? && old(Grantable(store, topic.asked))) ==>
        NothingEarned(old(store.states), store.states)
      ensures Smooth(env) && env.reserving.Sound? && old(Grantable(store, topic.asked)) ==>
        (r.Ok? && r.value.diagnostics == [] ==> exists n :: CleanRun(env.polls, n, topic))
      ensures Smooth(env) && env.reserving.Sound? && old(Grantable(store, topic.asked)) ==>
        forall n :: CleanRun(env.polls, n, topic) ==>
          Harvests(old(store.states) + ReservedBy(old(store.nextToken), topic.asked), store.states,
                   HarvestOf(Events(first), env, n), r)
    {
      ghost var before := store.states;
      running := true;
      var reserved := store.Reserve(topic.asked, env.reserving);
      ReservedOnly(before, store.states, old(store.nextToken), topic.asked, env.polls, topic, Events(first));
      if reserved.Err? {
        Reset();
        return Err(StoreFailed);
      }
      GrantedIsReservable(store, reserved.value, before.Keys);
      ghost var reservedStates := store.states;
      r := RunReserved(store, reserved.value, topic, indexes, first, env);
      OutcomeForEvents(before, reservedStates, store.states, env.polls, topic, indexes, first);
    }

    /**
     * One batch. No record attempted before is delivered or changed; what is delivered was
     * reserved first; a durable result was earned in a valid conversation. After a valid conversation
     * every answer is durable if the store takes what they make, and else every record stays reserved.
     */
    method RunBatch(store: DurableStore, revision: nat, events: seq<Event>, env: Env)
      returns (r: Result<BatchOutcome, RunnerError>)
      requires store.Valid()
      modifies this`session, this`running, store`states, store`batches, store`nextToken, store`delivered
      ensures store.Valid()
      ensures store.delivered == old(store.delivered)
        + if old(Reaches(store.states.Keys, store.capacity, revision, events, env))
          then Delivery(events, Asked(events, old(store.states.Keys))) else []
      ensures !old(Reaches(store.states.Keys, store.capacity, revision, events, env)) ==>
        NothingEarned(old(store.states), store.states)
      ensures r.Ok? ==> Events(r.value.events) == events
      ensures revision != this.revision ==> r == Err(RevisionMismatch)
      ensures session == old(session) + if WithinBounds(revision, events) then 1 else 0
      ensures old(Reaches(store.states.Keys, store.capacity, revision, events, env)) ==>
        r.Err? || r.value.diagnostics != [] ==> !running
      ensures BatchEffect(old(store.states), store.states, events, env.polls,
                          TopicOf(revision, events, old(session), old(store.states)))
      ensures r.Ok? && !old(Proceeds(store.states, store.capacity, revision, events, env)) ==>
        NothingEarned(old(store.states), store.states)
      ensures old(Proceeds(store.states, store.capacity, revision, events, env)) ==>
        (r.Ok? && r.value.diagnostics == [] <==>
          exists n :: CleanRun(env.polls, n, TopicOf(revision, events, old(session), old(store.states)))
            && Storable(HarvestOf(events, env, n)))
      ensures old(Proceeds(store.states, store.capacity, revision, events, env)) ==>
        forall n :: CleanRun(env.polls, n, TopicOf(revision, events, old(session), old(store.states))) ==>
          Harvests(old(store.states) + ReservedBy(old(store.nextToken), Asked(events, old(store.states.Keys))),
                   store.states, HarvestOf(events, env, n), r)
    {
      NoEffect(store.states, events, env.polls, TopicOf(revision, events, session, store.states));
      if revision != this.revision {
        return Err(RevisionMismatch);
      }
      if |events| > limits.maxEvents || |events| > limits.maxOutstanding {
        return Err(BatchLimit);
      }
      var topic := Topic(session, revision, {}, limits.maxOutputBytes);
      session := session + 1;
      var admission, indexes, first, pending := Admit(store.states.Keys, store.capacity, events, env);
      if admission.Rejected? {
        return Err(admission.error);
      }
      if admission.Declined? {
        if admission.reset {
          Reset();
        }
        return Ok(BatchOutcome(topic.session, revision, first, []));
      }
      AdmittedIsGrantable(store, events);
      r := Offer(store, topic.(asked := pending), indexes, first, env);
    }

    /** As `RunReserved`, over the ledger: it keeps no results, so nothing is left to fail. */
    method RunReservedInMemory(ledger: AttemptLedger, topic: Topic, indexes: map<Id, nat>, first: seq<EventOutcome>,
          env: Env)
      returns (outcome: BatchOutcome)
      requires ledger.Valid() && Untouched(indexes, first, topic.asked) && Distinct(Events(first))
      requires topic.asked <= ledger.attempted && forall id :: id in ledger.delivered ==> id !in topic.asked
      modifies this`running, ledger`delivered
      ensures ledger.Valid() && Events(outcome.events) == Events(first)
      ensures ledger.delivered ==
        old(ledger.delivered) + if Stopped(env) then [] else Delivery(Events(first), topic.asked)
      ensures Smooth(env.(persisting := Sound)) ==>
        ((exists n :: CleanRun(env.polls, n, topic)) <==> outcome.diagnostics == [])
      ensures !Stopped(env) ==> forall n :: CleanRun(env.polls, n, topic) ==>
        outcome.events == WithStderr(Settled(first, Answers(env.polls[..n - 1]), env.quote), env.stderr)
      ensures Stopped(env) || outcome.diagnostics != [] ==> !running
    {
      var outcomes;
      if env.cancelledReserving || env.lateReserving {
        Reset();
        outcomes := Mark(first, topic.asked, StopNote(env));
        return BatchOutcome(topic.session, topic.revision, outcomes, []);
      }
      if env.writerGone {
        Reset();
        outcomes := Mark(first, indexes.Keys, STDIN_CLOSED);
        return BatchOutcome(topic.session, topic.revision, outcomes, []);
      }
      var payload := Payload(Events(first), topic.asked);
      DeliveryOnce(Events(first), topic.asked);
      DeliveryMembers(Events(first), topic.asked);
      ledger.Deliver(payload);
      var notes, poisoned, heard;
      outcomes, notes, poisoned, heard := Converse(env.polls, topic, indexes, first, env.quote);
      if poisoned {
        Reset();
      } else {
        forall n | CleanRun(env.polls, n, topic) ensures n == heard {
          CleanRunIsUnique(env.polls, n, heard, topic);
        }
      }
      WithStderrKeepsEvents(outcomes, env.stderr);
      return BatchOutcome(topic.session, topic.revision, WithStderr(outcomes, env.stderr), notes);
    }

    /** One batch over the ledger. What was admitted is always granted, and only that can be delivered. */
    method RunBatchInMemory(ledger: AttemptLedger, revision: nat, events: seq<Event>, env: Env)
      returns (r: Result<BatchOutcome, RunnerError>)
      requires ledger.Valid()
      modifies this`session, this`running, ledger`attempted, ledger`delivered
      ensures ledger.Valid() && r != Err(StoreFailed)
      ensures if old(Admissible(ledger.attempted, ledger.capacity, revision, events, Unfailing(env)))
        then GoneAhead(old(ledger.attempted), old(ledger.delivered), ledger.attempted, ledger.delivered, events, env)
        else ledger.attempted == old(ledger.attempted) && ledger.delivered == old(ledger.delivered)
      ensures r.Ok? ==> Events(r.value.events) == events
      ensures revision != this.revision ==> r == Err(RevisionMismatch)
      ensures session == old(session) + if WithinBounds(revision, events) then 1 else 0
    {
      if revision != this.revision {
        return Err(RevisionMismatch);
      }
      if |events| > limits.maxEvents || |events| > limits.maxOutstanding {
        return Err(BatchLimit);
      }
      var topic := Topic(session, revision, {}, limits.maxOutputBytes);
      session := session + 1;
      var admission, indexes, first, pending :=
        Admit(ledger.attempted, ledger.capacity, events, Unfailing(env));
      if admission.Rejected? {
        return Err(admission.error);
      }
      if admission.Declined? {
        if admission.reset {
          Reset();
        }
        return Ok(BatchOutcome(topic.session, revision, first, []));
      }
      var outcome := OfferInMemory(ledger, topic.(asked := pending), indexes, first, env);
      return Ok(outcome);
    }

    /** What was admitted is always granted. */
    method OfferInMemory(ledger: AttemptLedger, topic: Topic, indexes: map<Id, nat>, first: seq<EventOutcome>, env: Env)
      returns (outcome: BatchOutcome)
      requires ledger.Valid() && Untouched(indexes, first, topic.asked) && Distinct(Events(first))
      requires CanReserve(ledger.attempted, topic.asked, ledger.capacity)
      modifies this`running, ledger`attempted, ledger`delivered
      ensures ledger.Valid() && Events(outcome.events) == Events(first)
      ensures ledger.attempted == old(ledger.attempted) + topic.asked
      ensures ledger.delivered ==
        old(ledger.delivered) + if Stopped(env) then [] else Delivery(Events(first), topic.asked)
      ensures Stopped(env) || outcome.diagnostics != [] ==> !running
      ensures !Stopped(env) ==> forall n :: CleanRun(env.polls, n, topic) ==>
        outcome.events == WithStderr(Settled(first, Answers(env.polls[..n - 1]), env.quote), env.stderr)
    {
      running := true;
      var reserved := ledger.Reserve(topic.asked);
      assert reserved;
      outcome := RunReservedInMemory(ledger, topic, indexes, first, env);
    }

    predicate WithinBounds(revision: nat, events: seq<Event>) {
      revision == this.revision && FewEnough(limits, events)
    }

    /** The batch passes what is looked at before a reservation. */
    predicate Admissible(attempted: set<Id>, capacity: nat, revision: nat, events: seq<Event>, env: Env) {
      && WithinBounds(revision, events) && Distinct(events) && Starts(env)
      && RoomFor(Asked(events, attempted), attempted, capacity)
    }

    /** Its records are handed to the command. */
    predicate Reaches(attempted: set<Id>, capacity: nat, revision: nat, events: seq<Event>, env: Env) {
      && Admissible(attempted, capacity, revision, events, env)
      && env.reserving.Sound? && |Asked(events, attempted)| <= MAX_BATCH && !Stopped(env)
    }

    /** It reaches the command and nothing but the conversation can spoil it. */
    ghost predicate Proceeds(states: map<Id, Attempt>, capacity: nat, revision: nat, events: seq<Event>, env: Env) {
      Reaches(states.Keys, capacity, revision, events, env) && env.persisting.Sound?
    }

    ghost function TopicOf(revision: nat, events: seq<Event>, session: nat, states: map<Id, Attempt>): Topic {
      Topic(session, revision, Asked(events, states.Keys), limits.maxOutputBytes)
    }
  }

  // --- whole runs over the ledger ---------------------------------------------------------------------

  datatype Round = Round(revision: nat, events: seq<Event>, env: Env)

  /** Records handed to a command in one batch: the caller's own, unattempted before and attempted after. */
  ghost predicate NewlyHanded(ids: seq<Id>, events: seq<Event>, before: set<Id>, after: set<Id>) {
    forall id :: id in ids ==> id in Ids(events) && id !in before && id in after
  }

  /** What a batch hands to a command: its unattempted records in order, if it is admitted and not stopped. */
  function RoundDelivery(revision: nat, limits: Limits, attempted: set<Id>, capacity: nat, round: Round): seq<Id> {
    if round.revision == revision && FewEnough(limits, round.events) && Distinct(round.events)
      && Starts(Unfailing(round.env)) && RoomFor(Asked(round.events, attempted), attempted, capacity)
      && !Stopped(round.env)
    then Delivery(round.events, Asked(round.events, attempted)) else []
  }

  /** One batch of a run, and what it hands to a command. */
  method RunRound(enricher: CommandEnricher, ledger: AttemptLedger, round: Round) returns (delivery: seq<Id>)
    requires ledger.Valid()
    modifies enricher`session, enricher`running, ledger`attempted, ledger`delivered
    ensures ledger.Valid() && old(ledger.attempted) <= ledger.attempted
    ensures ledger.delivered == old(ledger.delivered) + delivery
    ensures delivery == RoundDelivery(enricher.revision, enricher.limits, old(ledger.attempted), ledger.capacity, round)
    ensures NewlyHanded(delivery, round.events, old(ledger.attempted), ledger.attempted)
  {
    var log := ledger.delivered;
    DeliveryMembers(round.events, Asked(round.events, ledger.attempted));
    var r := enricher.RunBatchInMemory(ledger, round.revision, round.events, round.env);
    delivery := ledger.delivered[|log|..];
    forall id | id in delivery ensures id in ledger.attempted {
      assert id in ledger.delivered;
    }
  }

  /** Any number of batches over one ledger: no record is handed to a command twice, and capacity is kept. */
  method RunAllInMemory(revision: nat, limits: Limits, capacity: nat, rounds: seq<Round>)
    returns (deliveries: seq<seq<Id>>, attempted: seq<set<Id>>)
    requires capacity > 0
    ensures |deliveries| == |rounds| && |attempted| == |rounds| + 1 && attempted[0] == {}
    ensures NoDuplicates(Concat(deliveries))
    ensures forall i :: 0 <= i <= |rounds| ==> |attempted[i]| <= capacity
    ensures forall i :: 0 <= i < |rounds| ==>
      NewlyHanded(deliveries[i], rounds[i].events, attempted[i], attempted[i + 1])
    ensures forall i :: 0 <= i < |rounds| ==>
      deliveries[i] == RoundDelivery(revision, limits, attempted[i], capacity, rounds[i])
  {
    var enricher := new CommandEnricher(revision, limits);
    var ledger := new AttemptLedger(capacity);
    deliveries, attempted := [], [{}];
    for n := 0 to |rounds|
      invariant fresh(enricher) && fresh(ledger) && ledger.Valid() && ledger.capacity == capacity
      invariant enricher.revision == revision && enricher.limits == limits
      invariant |deliveries| == n && |attempted| == n + 1 && attempted[0] == {} && attempted[n] == ledger.attempted
      invariant Concat(deliveries) == ledger.delivered
      invariant forall i :: 0 <= i <= n ==> |attempted[i]| <= capacity
      invariant forall i :: 0 <= i < n ==> NewlyHanded(deliveries[i], rounds[i].events, attempted[i], attempted[i + 1])
      invariant forall i :: 0 <= i < n ==>
                  deliveries[i] == RoundDelivery(revision, limits, attempted[i], capacity, rounds[i])
    {
      var delivery := RunRound(enricher, ledger, rounds[n]);
      ConcatGrows(deliveries, delivery);
      deliveries, attempted := deliveries + [delivery], attempted + [ledger.attempted];
    }
  }
}
