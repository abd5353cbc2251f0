/**
 * The host of the bridge process. Requests wait under the generation of the process they were
 * sent to; a generation ends by a fault, by end of output, or by being terminated. Each method is
 * one stretch of code under the host's locks, and submission is one step.
 */
module AgentHost {
  import opened Prelude

  type Id = nat
  type Generation = nat

  datatype HostState = Stopped | Running | Faulted | Disconnected

  datatype HostError = NotRunning | Capacity | Protocol | Timeout | BridgeFailure

  /** What a request's callback is told. */
  datatype Outcome = Answered | Failed(error: HostError)

  /** A line of bridge output. */
  datatype Message =
    | Malformed
    | WrongVersion
    | Response(id: Id, ok: bool)
    | Event(critical: bool, queueFull: bool)
    | Unrecognised

  /** The writer channel at a submission: room, no room, or nobody reading it. */
  datatype Channel = Room | Full | Dead

  /** Everything a retired generation could disturb. */
  datatype Snapshot = Snapshot(
    generation: Generation,
    state: HostState,
    writer: Option<Generation>,
    child: Option<Generation>,
    pending: map<Id, Generation>,
    outcomes: map<Id, Outcome>)

  /** Conservation: what was registered is either still pending or has been called back. */
  ghost predicate Conserved(registered: set<Id>, pending: map<Id, Generation>, outcomes: map<Id, Outcome>) {
    && (forall id :: id in registered <==> id in pending || id in outcomes)
    && (forall id :: id in pending ==> id !in outcomes)
  }

  class Host {
    const maxPending: nat
    var generation: Generation
    var nextId: Id
    var closed: bool
    var state: HostState
    var writer: Option<Generation>
    var child: Option<Generation>
    var pending: map<Id, Generation>
    var droppedEvents: nat
    /** What each callback was told; one that has run is never run again. */
    var outcomes: map<Id, Outcome>
    /** Requests ever accepted. */
    var registered: set<Id>

    ghost predicate Valid()
      reads this
    {
      Registering() && (pending != map[] ==> writer.Some?)
    }

    /** Holds even between the two halves of a submission. */
    ghost predicate Registering()
      reads this
    {
      && Conserved(registered, pending, outcomes)
      && |pending| <= maxPending
      && (forall id :: id in registered ==> id < nextId)
      && (forall id :: id in pending ==> pending[id] == generation)
      && (pending != map[] ==> state.Running?)
      && (writer.Some? ==> writer.value == generation && state.Running?)
      && (child.Some? ==> child.value == generation)
    }

    function View(): Snapshot
      reads this
    {
      Snapshot(generation, state, writer, child, pending, outcomes)
    }

    constructor (maxPending: nat)
      ensures Valid() && this.maxPending == maxPending
      ensures View() == Snapshot(0, Stopped, None, None, map[], map[]) && registered == {}
    {
      this.maxPending := maxPending;
      generation, nextId, closed, state, writer, child := 0, 0, false, Stopped, None, None;
      pending, droppedEvents, outcomes, registered := map[], 0, map[], {};
    }

    // --- settling requests --------------------------------------------------------------------------

    /** A callback can be run only for a request that is out of the table and was never answered. */
    method Deliver(id: Id, outcome: Outcome)
      requires id !in outcomes && id !in pending
      modifies this`outcomes
      ensures outcomes == old(outcomes)[id := outcome]
    {
      outcomes := outcomes[id := outcome];
    }

    /** Take one request out and run its callback; a request already taken is not called again. */
    method SettleOne(id: Id, outcome: Outcome) returns (settled: bool)
      requires Valid()
      modifies this`pending, this`outcomes
      ensures Valid() && settled == (id in old(pending)) && pending == old(pending) - {id}
      ensures outcomes == if settled then old(outcomes)[id := outcome] else old(outcomes)
    {
      settled := id in pending;
      if settled {
        SizeWithout(pending, id);
        pending := pending - {id};
        Deliver(id, outcome);
      }
    }

    /** Every request of the ending generation is taken out and fails. */
    method FailAll(error: HostError)
      requires Valid()
      modifies this`pending, this`outcomes
      ensures Valid() && pending == map[]
      ensures outcomes == old(outcomes) + AllFailed(old(pending), error)
    {
      var taken := OfGeneration(pending, generation);
      AllTaken(registered, pending, outcomes, generation, error);
      pending := pending - taken.Keys;
      DeliverAll(taken, error);
    }

    method DeliverAll(taken: map<Id, Generation>, error: HostError)
      requires pending == map[] && forall id :: id in taken ==> id !in outcomes
      modifies this`outcomes
      ensures outcomes == old(outcomes) + AllFailed(taken, error)
    {
      var left := taken.Keys;
      while left != {}
        invariant left <= taken.Keys
        invariant outcomes == old(outcomes) + AllFailed(taken - left, error)
        decreases left
      {
        var id :| id in left;
        AllFailedNext(old(outcomes), taken, left, id, error);
        Deliver(id, Failed(error));
        left := left - {id};
      }
      assert taken - left == taken;
    }

    // --- requests ---------------------------------------------------------------------------------------

    /** An accepted request is pending under the current generation, or has failed at once. */
    method Submit(fits: bool, channel: Channel) returns (r: Result<Id, HostError>)
      requires Valid()
      modifies this`nextId, this`pending, this`outcomes, this`registered
      ensures Valid()
      ensures r.Ok? <==> old(state.Running?) && fits && |old(pending)| < maxPending
      ensures r == Err(Capacity) <==> old(state.Running?) && fits && |old(pending)| >= maxPending
      ensures r.Err? ==> View() == old(View()) && registered == old(registered)
      ensures r.Ok? ==> r.value !in old(registered) && registered == old(registered) + {r.value}
      ensures r.Ok? && writer.Some? && channel.Room? ==>
        View() == old(View()).(pending := old(pending)[r.value := generation])
      ensures r.Ok? && writer.Some? && channel.Full? ==>
        View() == old(View()).(outcomes := old(outcomes)[r.value := Failed(Capacity)])
      ensures r.Ok? && (writer.None? || channel.Dead?) ==>
        View() == old(View()).(outcomes := old(outcomes)[r.value := Failed(NotRunning)])
    {
      if !state.Running? {
        return Err(NotRunning);
      }
      var id := nextId;
      nextId := nextId + 1;
      if !fits {
        return Err(Protocol);
      }
      if |pending| >= maxPending {
        return Err(Capacity);
      }
      Register(id);
      if writer.None? || !channel.Room? {
        WithAndWithout(old(pending), id, generation);
        Refuse(id, Refusal(writer, channel));
      }
      return Ok(id);
    }

    // --- the end of a generation --------------------------------------------------------------------

    /** A worker found its generation broken. A retired generation's fault changes nothing. */
    method Fault(g: Generation)
      requires Valid()
      modifies this`state, this`writer, this`child, this`pending, this`outcomes
      ensures Valid()
      ensures View() == if g == generation then Ended(old(View()), generation, Faulted, NotRunning) else old(View())
      ensures g == generation ==> IsOver(old(View()), View(), Faulted)
    {
      if generation != g {
        return;
      }
      End(Faulted, generation, NotRunning);
    }

    /** The bridge's output ended. */
    method Disconnect(g: Generation)
      requires Valid()
      modifies this`state, this`writer, this`child, this`pending, this`outcomes
      ensures Valid()
      ensures View() ==
        if g == generation then Ended(old(View()), generation, Disconnected, NotRunning) else old(View())
      ensures g == generation ==> IsOver(old(View()), View(), Disconnected)
    {
      if generation != g {
        return;
      }
      End(Disconnected, generation, NotRunning);
    }

    /** Under the lifecycle lock: drop the writer, take the requests and the child, fail them all. */
    method End(next: HostState, g: Generation, error: HostError)
      requires Valid() && g == generation
      modifies this`state, this`writer, this`child, this`pending, this`outcomes
      ensures Valid() && View() == Ended(old(View()), generation, next, error)
    {
      FailAll(error);
      state := next;
      writer := None;
      if child == Some(g) {
        child := None;
      }
    }

    /** Retire the current generation; its number is never used again. */
    method Terminate(error: HostError)
      requires Valid()
      modifies this`generation, this`writer, this`child, this`pending, this`outcomes
      ensures Valid() && generation == old(generation) + 1 && writer.None? && child.None? && pending == map[]
      ensures outcomes == old(outcomes) + AllFailed(old(pending), error)
    {
      FailAll(error);
      writer := None;
      child := None;
      generation := generation + 1;
    }

    /** Start the process of a new generation, once no other is left. */
    method Launch(spawns: bool)
      requires Valid() && pending == map[] && writer.None? && child.None?
      modifies this`generation, this`state, this`writer, this`child
      ensures Valid() && generation == old(generation) + 1
      ensures View() == (
        if spawns then Snapshot(generation, Running, Some(generation), Some(generation), map[], outcomes)
                         else Snapshot(generation, Faulted, None, None, map[], outcomes))
    {
      generation := generation + 1;
      if !spawns {
        state := Faulted;
        return;
      }
      child := Some(generation);
      writer := Some(generation);
      state := Running;
    }

    /** Shutdown begins: from here on no request times out any more. */
    method BeginShutdown()
      modifies this`closed
      ensures closed && (old(Valid()) ==> Valid()) && View() == old(View())
    {
      closed := true;
    }

    /** Shutdown retires the generation and leaves the host stopped. */
    method EndShutdown()
      requires Valid()
      modifies this`generation, this`state, this`writer, this`child, this`pending, this`outcomes
      ensures Valid()
      ensures generation == old(generation) + 1 && state.Stopped? && writer.None? && child.None? && pending == map[]
      ensures outcomes == old(outcomes) + AllFailed(old(pending), NotRunning)
    {
      Terminate(NotRunning);
      state := Stopped;
    }

    /** A restart opens the host again, shut down or not, before it launches. */
    method Reopen()
      modifies this`closed
      ensures !closed && (old(Valid()) ==> Valid()) && View() == old(View())
    {
      closed := false;
    }

    // --- what the workers of a generation do --------------------------------------------------------------

    /** A line of output, read by the worker of generation `g`. */
    method ProcessLine(g: Generation, message: Message)
      requires Valid()
      modifies this`state, this`writer, this`child, this`pending, this`outcomes, this`droppedEvents
      ensures Valid()
      ensures g != generation ==> View() == old(View()) && droppedEvents == old(droppedEvents)
      ensures g == generation && Breaks(message) ==> View() == Ended(old(View()), generation, Faulted, NotRunning)
      ensures g == generation && (message.Malformed? || message.WrongVersion? || message.Unrecognised?) ==>
        IsOver(old(View()), View(), Faulted)
      ensures g == generation && message.Event? && message.critical && message.queueFull ==>
        IsOver(old(View()), View(), Faulted)
      ensures g == generation && message.Event? && !(message.critical && message.queueFull) ==> View() == old(View())
      ensures g == generation && message.Response? && message.id !in old(pending) ==> View() == old(View())
      ensures droppedEvents ==
        old(droppedEvents) +
        if g == generation && message.Event? && message.queueFull && !message.critical then 1 else 0
      ensures g == generation && message.Response? && message.id in old(pending) ==>
        View() == old(View()).(
          pending := old(pending) - {message.id},
          outcomes := old(outcomes)[message.id := if message.ok then Answered else Failed(BridgeFailure)])
      ensures g == generation && !Breaks(message) && !(message.Response? && message.id in old(pending)) ==>
        View() == old(View())
    {
      if generation != g {
        return;
      }
      if Breaks(message) {
        Fault(g);
      } else if message.Response? {
        Respond(message.id, message.ok);
      } else if message.queueFull {
        droppedEvents := droppedEvents + 1;
      }
    }

    /** A response to a request nobody waits for any more is ignored. */
    method Respond(id: Id, ok: bool)
      requires Valid()
      modifies this`pending, this`outcomes
      ensures Valid()
      ensures id in old(pending) ==>
        View() == old(View()).(
          pending := old(pending) - {id},
          outcomes := old(outcomes)[id := if ok then Answered else Failed(BridgeFailure)])
      ensures id !in old(pending) ==> View() == old(View())
    {
      if id in pending {
        var settled := SettleOne(id, if ok then Answered else Failed(BridgeFailure));
      }
    }

    /** The monitor of generation `g` found a request past its deadline: it times out, the rest fail. */
    method TimeoutFires(g: Generation, id: Id)
      requires Valid() && (g == generation ==> id in pending)
      modifies this`state, this`writer, this`child, this`pending, this`outcomes
      ensures Valid()
      ensures closed || g != generation ==> View() == old(View())
      ensures !closed && g == generation ==>
        View() == Snapshot(generation, Faulted, None, None, map[],
          old(outcomes)[id := Failed(Timeout)] + AllFailed(old(pending) - {id}, NotRunning))
    {
      if closed || generation != g {
        return;
      }
      var settled := SettleOne(id, Failed(Timeout));
      Fault(g);
    }

    method Register(id: Id)
      requires Valid() && id !in registered && id < nextId && state.Running? && |pending| < maxPending
      modifies this`pending, this`registered
      ensures Registering() && pending == old(pending)[id := generation] && registered == old(registered) + {id}
      ensures writer.Some? ==> Valid()
    {
      assert |pending[id := generation]| == |pending| + 1;
      pending := pending[id := generation];
      registered := registered + {id};
    }

    /** A request the writer did not take fails before anybody else sees it. */
    method Refuse(id: Id, error: HostError)
      requires Registering() && id in pending && (pending - {id} != map[] ==> writer.Some?)
      modifies this`pending, this`outcomes
      ensures Valid() && pending == old(pending) - {id} && outcomes == old(outcomes)[id := Failed(error)]
    {
      SizeWithout(pending, id);
      pending := pending - {id};
      Deliver(id, Failed(error));
    }
  }

  lemma WithAndWithout(pending: map<Id, Generation>, id: Id, generation: Generation)
    requires id !in pending
    ensures pending[id := generation] - {id} == pending
  {
  }

  function OfGeneration(pending: map<Id, Generation>, generation: Generation): map<Id, Generation> {
    map id | id in pending && pending[id] == generation :: pending[id]
  }

  /** Nobody waits for another generation than the current one, so nobody is left behind. */
  lemma AllTaken(registered: set<Id>, pending: map<Id, Generation>, outcomes: map<Id, Outcome>, generation: Generation,
        error: HostError)
    requires Conserved(registered, pending, outcomes)
    requires forall id :: id in pending ==> pending[id] == generation
    ensures OfGeneration(pending, generation) == pending && pending - pending.Keys == map[]
    ensures Conserved(registered, map[], outcomes + AllFailed(pending, error))
  {
  }

  lemma AllFailedNext(base: map<Id, Outcome>, taken: map<Id, Generation>, left: set<Id>, id: Id, error: HostError)
    requires id in left && left <= taken.Keys && id !in base
    ensures base + AllFailed(taken - (left - {id}), error) ==
            (base + AllFailed(taken - left, error))[id := Failed(error)]
    ensures id !in base + AllFailed(taken - left, error)
  {
  }

  /** Lines after which the host no longer trusts the process. */
  predicate Breaks(message: Message) {
    message.Malformed? || message.WrongVersion? || message.Unrecognised?
    || (message.Event? && message.critical && message.queueFull)
  }

  /** What is left when a generation ends: its requests failed, its writer and its child gone. */
  function Ended(view: Snapshot, generation: Generation, state: HostState, error: HostError): Snapshot {
    Snapshot(generation, state, None, None, map[], view.outcomes + AllFailed(view.pending, error))
  }

  /** A generation is over: nobody waits, everybody who did is told so, and nobody else hears anything. */
  ghost predicate IsOver(before: Snapshot, after: Snapshot, state: HostState) {
    && after.generation == before.generation && after.state == state
    && after.writer.None? && after.child.None? && after.pending == map[]
    && (forall id :: id in before.pending ==> id in after.outcomes && after.outcomes[id] == Failed(NotRunning))
    && (forall id :: id !in before.pending ==> (id in after.outcomes <==> id in before.outcomes))
    && (forall id :: id !in before.pending && id in before.outcomes ==> after.outcomes[id] == before.outcomes[id])
  }

  /** Why a request was not written. */
  function Refusal(writer: Option<Generation>, channel: Channel): HostError {
    if writer.Some? && channel.Full? then Capacity else NotRunning
  }

  function AllFailed(pending: map<Id, Generation>, error: HostError): (failed: map<Id, Outcome>)
    ensures failed.Keys == pending.Keys && forall id :: id in failed ==> failed[id] == Failed(error)
  {
    map id | id in pending :: Failed(error)
  }

  lemma SizeWithout(pending: map<Id, Generation>, id: Id)
    requires id in pending
    ensures |pending - {id}| == |pending| - 1
  {
    assert pending == (pending - {id})[id := pending[id]];
  }

  // --- whole runs -----------------------------------------------------------------------------------------

  datatype Event =
    | Submitting(fits: bool, channel: Channel)
    | LineRead(g: Generation, message: Message)
    | Breaking(g: Generation)
    | OutputEnded(g: Generation)
    | Expiring(g: Generation, id: Id)
    | Restarting
    | Launching(spawns: bool)
    | ShuttingDown
    | ShutDown

  /** What the owner is in the middle of; it does one thing at a time. */
  datatype Owner = Free | Restart | Shutdown

  /** The owner has terminated a generation and not launched the next. */
  ghost predicate BetweenGenerations(host: Host)
    reads host
  {
    host.pending == map[] && host.writer.None? && host.child.None?
  }

  function EventGeneration(event: Event): Option<Generation> {
    match event
    case LineRead(g, _) => Some(g)
    case Breaking(g) => Some(g)
    case OutputEnded(g) => Some(g)
    case Expiring(g, _) => Some(g)
    case _ => None
  }

  /** No callback ever changes its mind, and none is forgotten. */
  ghost predicate Extends(before: map<Id, Outcome>, after: map<Id, Outcome>) {
    forall id :: id in before ==> id in after && after[id] == before[id]
  }

  lemma FailingExtends(outcomes: map<Id, Outcome>, pending: map<Id, Generation>, error: HostError)
    requires forall id :: id in pending ==> id !in outcomes
    ensures Extends(outcomes, outcomes + AllFailed(pending, error))
  {
  }

  lemma ExtendsTransitive(a: map<Id, Outcome>, b: map<Id, Outcome>, c: map<Id, Outcome>)
    requires Extends(a, b) && Extends(b, c)
    ensures Extends(a, c)
  {
  }

  method StepLine(host: Host, g: Generation, message: Message)
    requires host.Valid()
    modifies host
    ensures host.Valid() && Extends(old(host.outcomes), host.outcomes)
    ensures old(BetweenGenerations(host)) ==> BetweenGenerations(host)
    ensures g != old(host.generation) ==> host.View() == old(host.View())
    ensures host.generation == old(host.generation)
  {
    FailingExtends(host.outcomes, host.pending, NotRunning);
    host.ProcessLine(g, message);
  }

  lemma ExpiryExtends(outcomes: map<Id, Outcome>, pending: map<Id, Generation>, id: Id)
    requires id in pending && forall other :: other in pending ==> other !in outcomes
    ensures Extends(outcomes, outcomes[id := Failed(Timeout)] + AllFailed(pending - {id}, NotRunning))
  {
  }

  method StepExpiry(host: Host, g: Generation, id: Id)
    requires host.Valid()
    modifies host
    ensures host.Valid() && Extends(old(host.outcomes), host.outcomes)
    ensures old(BetweenGenerations(host)) ==> BetweenGenerations(host)
    ensures g != old(host.generation) ==> host.View() == old(host.View())
    ensures host.generation == old(host.generation)
  {
    if g == host.generation && id in host.pending {
      ExpiryExtends(host.outcomes, host.pending, id);
      host.TimeoutFires(g, id);
    }
  }

  /** What a worker's event may do: nothing is forgotten, and a retired worker does nothing. */
  method StepWorker(host: Host, event: Event)
    requires host.Valid() && EventGeneration(event).Some?
    modifies host
    ensures host.Valid() && Extends(old(host.outcomes), host.outcomes)
    ensures old(BetweenGenerations(host)) ==> BetweenGenerations(host)
    ensures EventGeneration(event).value != old(host.generation) ==> host.View() == old(host.View())
    ensures host.generation == old(host.generation)
  {
    FailingExtends(host.outcomes, host.pending, NotRunning);
    match event
    case LineRead(g, message) => StepLine(host, g, message);
    case Breaking(g) => host.Fault(g);
    case OutputEnded(g) => host.Disconnect(g);
    case Expiring(g, id) => StepExpiry(host, g, id);
  }

  /** What the owner does next, where it may: restarting and shutting down take two steps each. */
  method StepOwner(host: Host, event: Event, owner: Owner) returns (owner': Owner)
    requires host.Valid() && EventGeneration(event).None? && (owner.Restart? ==> BetweenGenerations(host))
    modifies host
    ensures host.Valid() && (owner'.Restart? ==> BetweenGenerations(host))
    ensures Extends(old(host.outcomes), host.outcomes)
    ensures old(host.generation) <= host.generation
  {
    owner' := owner;
    FailingExtends(host.outcomes, host.pending, NotRunning);
    match event
    case Submitting(fits, channel) => var r := host.Submit(fits, channel);
    case Restarting =>
      if !owner.Shutdown? {
        host.Terminate(NotRunning);
        owner' := Restart;
      }
    case Launching(spawns) =>
      if owner.Restart? {
        host.Reopen();
        host.Launch(spawns);
        owner' := Free;
      }
    case ShuttingDown =>
      host.BeginShutdown();
      owner' := Shutdown;
    case ShutDown =>
      if owner.Shutdown? {
        host.EndShutdown();
        owner' := Free;
      }
  }

  /** One event, of a worker or of the owner; nobody else launches, terminates or shuts down. */
  method Step(host: Host, event: Event, owner: Owner) returns (owner': Owner)
    requires host.Valid() && (owner.Restart? ==> BetweenGenerations(host))
    modifies host
    ensures host.Valid() && (owner'.Restart? ==> BetweenGenerations(host))
    ensures Extends(old(host.outcomes), host.outcomes)
    ensures Retired(event, old(host.View())) ==> host.View() == old(host.View())
    ensures old(host.generation) <= host.generation
  {
    if EventGeneration(event).Some? {
      StepWorker(host, event);
      owner' := owner;
    } else {
      owner' := StepOwner(host, event, owner);
    }
  }

  /** The event comes from a worker of a generation that is over. */
  predicate Retired(event: Event, view: Snapshot) {
    EventGeneration(event).Some? && EventGeneration(event).value != view.generation
  }

  /** At most `maxPending` wait, and what has been answered by then stays answered so. */
  ghost predicate Sound(view: Snapshot, maxPending: nat, final: map<Id, Outcome>) {
    |view.pending| <= maxPending && Extends(view.outcomes, final)
  }

  /** The last step of a life. */
  method Finish(host: Host, ghost views: seq<Snapshot>)
    requires host.Valid()
    requires forall i :: 0 <= i < |views| ==> Sound(views[i], host.maxPending, host.outcomes)
    modifies host
    ensures host.registered == host.outcomes.Keys
    ensures forall i :: 0 <= i < |views| ==> Sound(views[i], host.maxPending, host.outcomes)
  {
    ghost var before := host.outcomes;
    FailingExtends(host.outcomes, host.pending, NotRunning);
    host.BeginShutdown();
    host.EndShutdown();
    forall i | 0 <= i < |views| ensures Sound(views[i], host.maxPending, host.outcomes) {
      ExtendsTransitive(views[i].outcomes, before, host.outcomes);
    }
  }

  /**
   * A whole life of the host, shut down and restarted at will and shut down at its end. Every accepted
   * request is called back exactly once; never do more than `maxPending` wait; a retired generation changes nothing.
   */
  method Run(maxPending: nat, events: seq<Event>)
    returns (views: seq<Snapshot>, accepted: set<Id>, final: map<Id, Outcome>)
    ensures |views| == |events| + 1
    ensures forall i :: 0 <= i < |views| ==> Sound(views[i], maxPending, final)
    ensures accepted == final.Keys
    ensures forall i :: 0 <= i < |events| && Retired(events[i], views[i]) ==> views[i + 1] == views[i]
  {
    var host := new Host(maxPending);
    var owner := Restart;
    views := [host.View()];
    for n := 0 to |events|
      invariant fresh(host) && host.Valid() && host.maxPending == maxPending
      invariant owner.Restart? ==> BetweenGenerations(host)
      invariant |views| == n + 1 && views[n] == host.View()
      invariant forall i :: 0 <= i <= n ==> Sound(views[i], maxPending, host.outcomes)
      invariant forall i :: 0 <= i < n && Retired(events[i], views[i]) ==> views[i + 1] == views[i]
    {
      ghost var before := host.outcomes;
      owner := Step(host, events[n], owner);
      forall i | 0 <= i <= n ensures Sound(views[i], maxPending, host.outcomes) {
        ExtendsTransitive(views[i].outcomes, before, host.outcomes);
      }
      views := views + [host.View()];
    }
    Finish(host, views);
    accepted, final := host.registered, host.outcomes;
  }
}
