/**
 * A valid conversation whose results the store does not take. The batch is refused as a whole: every record
 * stays reserved, and no later execution that includes one of them gets a result.
 */
module UnstorableResults {
  import opened Prelude
  import opened AttemptStore
  import opened EnrichBatch
  import opened EnrichRunner
  import opened CommandExecution

  /** Whatever happens in between, an execution with a record that stayed reserved is refused. */
  lemma RefusedForGood(before: map<Id, Attempt>, token: Token, never: seq<Event>, later: map<Id, Attempt>,
        capacity: nat, events: seq<Event>, k: nat, world: World)
    requires Preserves(before + ReservedBy(token, Ids(never)), later)
    requires k < |events| && events[k].id in Ids(never)
    ensures AnySpoiled(later, events) && !Succeeds(later, capacity, events, world) && !Offers(later, events, world)
  {
    assert later[events[k].id] == Reserved(token);
    assert Spoiled(StateOf(later, events[k].id));
  }

  // --- five answers of 230000 characters ------------------------------------------------------------------

  const COUNT: nat := 5
  const FIRST: nat := 2
  const LINE_BYTES: nat := 230100

  function Letters(): string {
    seq(230000, _ => 'x')
  }

  /** One field, far within the limit of a single result. */
  function Blob(): Fields {
    Fields(["blob"], "{\"blob\":\"" + Letters() + "\"}")
  }

  function Records(): (events: seq<Event>)
    ensures |events| == COUNT && Distinct(events)
    ensures forall i :: 0 <= i < COUNT ==> events[i] == Event(FIRST + i, "raw", 5, NO_FIELDS)
  {
    seq(COUNT, i requires 0 <= i < COUNT => Event(FIRST + i, "raw", 5, NO_FIELDS))
  }

  /** Every record answered in turn, and a completion. */
  function Script(): (polls: seq<Poll>)
    ensures |polls| == COUNT + 1
  {
    seq(COUNT + 1, i requires 0 <= i <= COUNT =>
      Poll(false, false, Written, Line(LINE_BYTES,
        Ok(if i < COUNT then Reply(1, 1, FIRST + i, Blob()) else BatchComplete(1, 1)))))
  }

  /** After `k` replies. */
  lemma {:induction false} ScriptSoFar(k: nat)
    requires k <= COUNT
    ensures Bytes(Script()[..k]) == k * LINE_BYTES
    ensures forall id :: id in Answers(Script()[..k]) <==> FIRST <= id < FIRST + k
    ensures forall id :: id in Answers(Script()[..k]) ==> Answers(Script()[..k])[id] == Blob()
  {
    if k > 0 {
      ScriptSoFar(k - 1);
      assert Script()[..k][..k - 1] == Script()[..k - 1];
    }
  }

  lemma AskedAre(id: Id)
    ensures id in Ids(Records()) <==> FIRST <= id < FIRST + COUNT
  {
    if FIRST <= id < FIRST + COUNT {
      assert Records()[id - FIRST].id == id;
    }
  }

  lemma ScriptIsValid()
    ensures CleanRun(Script(), COUNT + 1, TopicFor(Records()))
  {
    var topic := TopicFor(Records());
    forall i | 0 <= i < COUNT ensures GoodStep(Script()[..i], Script()[i], topic) {
      ScriptSoFar(i);
      AskedAre(FIRST + i);
    }
    ScriptSoFar(COUNT);
    forall id ensures id in Answers(Script()[..COUNT]) <==> id in topic.asked {
      AskedAre(id);
    }
    assert Finishes(Script()[..COUNT], Script()[COUNT], topic);
  }

  lemma BlobLength()
    ensures ByteLength(Blob().json) == 230011
  {
    ByteLengthOfAscii(Blob().json);
  }

  lemma BlobIsStorable()
    ensures StorableFields(Blob())
  {
    BlobLength();
    ByteLengthOfAscii("blob");
  }

  /** Each answer is allowed and one the store would take. */
  lemma AnswersAreGood()
    ensures AnswersAll(Script(), COUNT + 1, Records())
  {
    ScriptIsValid();
    ScriptSoFar(COUNT);
    BlobIsStorable();
    forall k | 0 <= k < COUNT ensures AnswersWell(Answers(Script()[..COUNT]), Records()[k]) {
      assert Records()[k].id == FIRST + k;
    }
  }

  lemma OneBlob(env: Env, id: Id)
    requires env.polls == Script() && id in Ids(Records())
    ensures id in HarvestOf(Records(), env, COUNT + 1)
    ensures StoredBytes(HarvestOf(Records(), env, COUNT + 1)[id]) >= 230011
  {
    AskedAre(id);
    ScriptSoFar(COUNT);
    HarvestMeaning(Records(), Answers(Script()[..COUNT]), env.stderr, env.quote, id - FIRST);
    BlobIsStorable();
    BlobLength();
  }

  lemma TooHeavy(results: map<Id, Attempt>, least: nat)
    requires forall id :: id in results ==> StoredBytes(results[id]) >= least
    requires Times(least, |results|) > MAX_BATCH_BYTES
    ensures !Storable(results)
  {
    SumAtLeast(results, StoredBytes, least);
  }

  lemma HarvestOfAll(env: Env)
    requires env.polls == Script()
    ensures HarvestOf(Records(), env, COUNT + 1).Keys == Ids(Records())
  {
    ScriptIsValid();
    WellMeansReady(Records(), env, COUNT + 1);
  }

  /** All together they exceed the limit of a batch. */
  lemma TogetherTooMuch(env: Env)
    requires env.polls == Script()
    ensures !Storable(HarvestOf(Records(), env, COUNT + 1))
  {
    var harvest := HarvestOf(Records(), env, COUNT + 1);
    HarvestOfAll(env);
    FiveRecords();
    assert |harvest| == |harvest.Keys|;
    forall id | id in harvest ensures StoredBytes(harvest[id]) >= 230011 {
      OneBlob(env, id);
    }
    assert Times(230011, COUNT) == 1150055;
    TooHeavy(harvest, 230011);
  }

  lemma FiveRecords()
    ensures |Ids(Records())| == COUNT
  {
    forall id ensures id in Ids(Records()) <==> id in {2, 3, 4, 5, 6} {
      AskedAre(id);
    }
    assert Ids(Records()) == {2, 3, 4, 5, 6};
  }

  lemma {:induction false} SmallInput(k: nat)
    requires k <= COUNT
    ensures InputSize(Records()[..k]) <= k * 300
  {
    if k > 0 {
      SmallInput(k - 1);
      assert Records()[..k][..k - 1] == Records()[..k - 1];
      ByteLengthBounds("raw");
      ByteLengthBounds("{}");
    }
  }

  /** On a fresh store nothing stands in the way of these records. */
  lemma NothingHinders(capacity: nat, env: Env)
    requires capacity >= COUNT && Starts(env) && Smooth(env) && env.reserving.Sound?
    ensures Unseen(map[], Records()) == Records()
    ensures Unhindered(map[], capacity, Records(), env)
    ensures Offers(map[], Records(), World(false, false, env, false, false))
  {
    NothingSeen(Records());
    FiveRecords();
    SmallInput(COUNT);
    FullPrefix(Records());
  }

  lemma RefusedHarvest(token: Token, after: map<Id, Attempt>, never: seq<Event>, harvest: map<Id, Attempt>,
        refused: bool)
    requires TakenOrReserved(map[], token, after, never, harvest, refused) && !Storable(harvest)
    ensures refused && after == ReservedBy(token, Ids(never))
  {
    assert map[] + ReservedBy(token, Ids(never)) == ReservedBy(token, Ids(never));
  }

  /** The store refuses the results, and every record stays reserved. */
  lemma RefusedAsAWhole(token: Token, after: map<Id, Attempt>, env: Env, refused: bool)
    requires env.polls == Script() && ConversationSettles(map[], token, after, Records(), env, refused)
    ensures refused && after == ReservedBy(token, Ids(Records()))
  {
    ScriptIsValid();
    TogetherTooMuch(env);
    RefusedHarvest(token, after, Records(), HarvestOf(Records(), env, COUNT + 1), refused);
  }

  /**
   * The run: nothing outside fails, and yet the execution ends in a runner's error with the five records
   * reserved. Whatever the second execution is like, it fails and delivers nothing.
   */
  method FiveBlobs(store: DurableStore, env: Env, later: seq<Event>, world: World)
    returns (first: Result<ExecutionResult, ExecutionError>, second: Result<ExecutionResult, ExecutionError>)
    requires store.Valid() && store.states == map[] && store.capacity >= COUNT
    requires Starts(env) && Smooth(env) && env.reserving.Sound? && env.polls == Script()
    requires exists k :: 0 <= k < |later| && later[k].id in Ids(Records())
    modifies store`states, store`batches, store`nextToken, store`delivered
    ensures first == Err(Runner(StoreFailed)) && second.Err?
    ensures store.states == ReservedBy(old(store.nextToken), Ids(Records()))
  {
    ghost var token := store.nextToken;
    NothingHinders(store.capacity, env);
    first := Execute(store, Records(), World(false, false, env, false, false));
    RefusedAsAWhole(token, store.states, env, first == Err(Runner(StoreFailed)));
    second := Again(store, token, later, world);
  }

  /** A further execution with one of the records. */
  method Again(store: DurableStore, ghost token: Token, events: seq<Event>, world: World)
    returns (r: Result<ExecutionResult, ExecutionError>)
    requires store.Valid() && store.states == ReservedBy(token, Ids(Records()))
    requires exists k :: 0 <= k < |events| && events[k].id in Ids(Records())
    modifies store`states, store`batches, store`nextToken, store`delivered
    ensures r.Err? && store.states == old(store.states) && store.delivered == old(store.delivered)
  {
    ghost var k :| 0 <= k < |events| && events[k].id in Ids(Records());
    assert map[] + ReservedBy(token, Ids(Records())) == store.states;
    RefusedForGood(map[], token, Records(), store.states, store.capacity, events, k, world);
    r := Execute(store, events, world);
  }

  lemma {:induction false} NothingSeen(events: seq<Event>)
    ensures Unseen(map[], events) == events && !AnySpoiled(map[], events) && LookupBytes(map[], IdsOf(events)) == 0
  {
    if events != [] {
      var n := |events| - 1;
      NothingSeen(events[..n]);
      SplitLast(events);
      assert IdsOf(events)[..n] == IdsOf(events[..n]);
    }
  }
}
