/**
 * One bridge session between its awaits. Each method is one stretch of code without an await and
 * takes the session from one state to the next of its state machine; whatever was awaited comes
 * back in any order, as the outstanding runs, cancellations and archive tasks.
 */
module BridgeTurns {
  import opened Prelude
  import opened TurnStates
  import opened ArchiveRaces

  class Session {
    var remoteBusy: bool
    var cancelPending: bool
    var turnSettlementPending: bool
    var observing: bool
    var terminalCleanupOnUpdate: bool
    var cleanupScheduled: bool
    var agentStatus: Option<Status>
    var generation: nat
    var owned: Option<Owned>

    /** The backend can stop a turn remotely. */
    var supported: bool
    /** The bridge takes requests. */
    var open: bool
    /** Unsubscribed and given up. */
    var disposed: bool
    var closePhase: ClosePhase
    var archivePhase: ArchivePhase
    var recovery: RecoveryPhase

    /** Turns whose run has not settled yet, by generation. */
    var runs: set<nat>
    /** The remote cancellation still to answer, by the generation it was asked for; there is never a second. */
    var cancel: Option<nat>
    /** Its deadline has passed. */
    var expired: bool

    function Snapshot(): Flags
      reads this
    {
      Flags(remoteBusy, cancelPending, turnSettlementPending, observing, terminalCleanupOnUpdate, cleanupScheduled,
            agentStatus, generation, owned)
    }

    function State(): SessionState
      reads this
    {
      SessionState(Snapshot(), supported, open, disposed, closePhase, archivePhase, recovery, runs, cancel, expired)
    }

    ghost predicate Valid()
      reads this
    {
      Sound(State())
    }

    /**
     * A session started, resumed or, with `recovered`, taken over from an earlier bridge; `listed` when recovery
     * is still to come to the record of a session it did not take over.
     */
    constructor (owned: Option<Owned>, running: bool, status: Option<Status>, observing: bool, recovered: bool,
                 supported: bool, listed: bool)
      ensures Valid() && State() == Initial(owned, running, status, observing, recovered, supported, listed)
    {
      this.owned, remoteBusy, agentStatus, this.observing := owned, running, status, observing;
      terminalCleanupOnUpdate, this.supported := recovered, supported;
      cancelPending, turnSettlementPending, cleanupScheduled, generation := false, false, false, 0;
      open, disposed, closePhase, archivePhase := true, false, NotVisited, NoArchive;
      recovery := if recovered then PassedOver else if listed then Due else NotListed;
      runs, cancel, expired := {}, None, false;
    }

    // --- turns ------------------------------------------------------------------------------------

    /** A prompt or a proposal. A session that is closing takes no turn, now or later. */
    method BeginTurn() returns (r: Result<nat, string>)
      modifies this
      ensures State() == Next(old(State()), Prompt)
      ensures r.Ok? <==> old(open && !disposed && RunAdmitted(Snapshot()) && !remoteBusy && !cancelPending)
      ensures old(Closing(Snapshot())) ==> r.Err?
      ensures r.Err? ==> State() == old(State())
      ensures r.Ok? ==> r.value == generation == old(generation) + 1 && runs == old(runs) + {generation}
      ensures r.Ok? ==> turnSettlementPending && remoteBusy && !terminalCleanupOnUpdate
    {
      if !open {
        return Err("BRIDGE_NOT_OPEN");
      }
      if disposed {
        return Err("NOT_FOUND");
      }
      if !RunAdmitted(Snapshot()) {
        return Err("SESSION_CLOSING");
      }
      if remoteBusy || cancelPending {
        return Err("SESSION_BUSY");
      }
      BeginRemote();
      return Ok(generation);
    }

    method BeginRemote()
      modifies this`remoteBusy, this`terminalCleanupOnUpdate, this`turnSettlementPending, this`agentStatus,
        this`observing, this`generation, this`runs
      ensures Snapshot() == BegunFlags(old(Snapshot())) && runs == old(runs) + {generation}
    {
      remoteBusy := true;
      terminalCleanupOnUpdate := false;
      turnSettlementPending := true;
      agentStatus := Some(Running);
      observing := true;
      generation := generation + 1;
      runs := runs + {generation};
    }

    /** A run ended, with a result or a rejection; only the newest generation may be heard. */
    method RunSettled(g: nat, result: Option<Option<Status>>)
      requires g in runs
      modifies this`runs, this`turnSettlementPending, this`agentStatus, this`remoteBusy, this`observing,
        this`cleanupScheduled, this`owned, this`archivePhase
      ensures State() == AfterSettled(old(State()), g, result)
      ensures g < generation ==> State() == old(State()).(runs := old(runs) - {g})
      ensures g == generation ==> Snapshot() == SettledFlags(old(Snapshot()), result)
      ensures old(Closing(Snapshot())) ==> Closing(Snapshot())
    {
      runs := runs - {g};
      if g == generation {
        SettleCurrent(result);
      }
    }

    method SettleCurrent(result: Option<Option<Status>>)
      modifies this`turnSettlementPending, this`agentStatus, this`remoteBusy, this`observing,
        this`cleanupScheduled, this`owned, this`archivePhase
      ensures State() == WithFlags(old(State()), SettledFlags(old(Snapshot()), result))
    {
      Hear(result);
      if result.Some? && Terminal(result.value) && Ephemeral(owned) {
        ScheduleArchive(false);
      }
    }

    method Hear(result: Option<Option<Status>>)
      modifies this`turnSettlementPending, this`agentStatus, this`remoteBusy, this`observing
      ensures Snapshot() == HeardFlags(old(Snapshot()), result)
    {
      turnSettlementPending := false;
      if result.Some? && result.value.Some? {
        agentStatus := result.value;
      }
      if Terminal(agentStatus) {
        remoteBusy := false;
      }
      observing := false;
    }

    /** The observer gave up waiting, by timeout or cancellation. */
    method ObserverLeft(g: nat)
      modifies this`observing
      ensures State() == Next(old(State()), GaveUp(g))
    {
      if g == generation {
        observing := false;
      }
    }

    /**
     * A status update streamed by the agent. It ends no turn whose cancellation is awaited, nor one whose
     * settlement is, unless cleanup waits for an update; and only then does it start an archive.
     */
    method Update(status: Option<Status>)
      requires !disposed
      modifies this`turnSettlementPending, this`agentStatus, this`remoteBusy, this`observing,
        this`cleanupScheduled, this`owned, this`archivePhase
      ensures State() == WithFlags(old(State()), UpdatedFlags(old(Snapshot()), status))
      ensures old(remoteBusy && (cancelPending || (turnSettlementPending && !terminalCleanupOnUpdate))) ==> remoteBusy
      ensures old(turnSettlementPending && !terminalCleanupOnUpdate) ==> turnSettlementPending
      ensures !old(cleanupScheduled) ==>
        (cleanupScheduled <==>
          Terminal(status) && terminalCleanupOnUpdate && old(Ephemeral(owned) && !owned.value.state.Archived?))
      ensures old(Closing(Snapshot())) ==> Closing(Snapshot())
    {
      Report(status);
      if Terminal(status) && terminalCleanupOnUpdate && Ephemeral(owned) {
        turnSettlementPending := false;
        ScheduleArchive(true);
      }
    }

    method Report(status: Option<Status>)
      modifies this`agentStatus, this`remoteBusy, this`observing
      ensures Snapshot() == ReportedFlags(old(Snapshot()), status)
    {
      if status.Some? {
        agentStatus := status;
      }
      if status.Some? && (status.value.Running? || status.value.Initializing?) {
        remoteBusy := true;
      } else if Terminal(status) && !cancelPending && (!turnSettlementPending || terminalCleanupOnUpdate) {
        remoteBusy := false;
      }
      if Terminal(status) {
        observing := false;
      }
    }

    // --- cancellation -----------------------------------------------------------------------------

    /** A cancel request up to its await; without a remote turn to stop it is over at once. */
    method Cancel() returns (accepted: bool)
      requires open && !disposed
      modifies this`cancelPending, this`observing, this`terminalCleanupOnUpdate, this`cancel, this`expired
      ensures State() == AfterAskCancel(old(State()))
      ensures accepted == !old(cancelPending)
      ensures !accepted ==> State() == old(State())
      ensures accepted ==> cancel == if remoteBusy && supported then Some(generation) else old(cancel)
      ensures accepted && remoteBusy && supported ==>
        !expired && Snapshot() == old(Snapshot()).(cancelPending := true, observing := false)
      ensures accepted && !(remoteBusy && supported) ==> Snapshot() == old(Snapshot()).(
        cancelPending := false, observing := false,
        terminalCleanupOnUpdate := old(terminalCleanupOnUpdate) || (remoteBusy && Ephemeral(owned)))
    {
      if cancelPending {
        return false;
      }
      var hadRemoteTurn := remoteBusy;
      cancelPending := hadRemoteTurn;
      observing := false;
      if hadRemoteTurn && supported {
        cancel, expired := Some(generation), false;
        return true;
      }
      cancelPending := false;
      if hadRemoteTurn && Ephemeral(owned) {
        terminalCleanupOnUpdate := true;
      }
      return true;
    }

    /** The backend's answer, whenever it comes. */
    method Finalize(cancelled: bool)
      requires cancel.Some?
      modifies this`cancelPending, this`remoteBusy, this`turnSettlementPending, this`generation, this`cancel
      ensures State() == Finalized(old(State()), cancelled)
    {
      var g := cancel.value;
      cancel := None;
      if generation != g {
        return;
      }
      cancelPending := false;
      if cancelled {
        remoteBusy := false;
        turnSettlementPending := false;
        generation := generation + 1;
      } else if Terminal(agentStatus) {
        remoteBusy := false;
      }
    }

    /** The answer came within the deadline; the request goes on in the same breath. */
    method CancelAnswered(cancelled: bool)
      requires cancel.Some? && !expired
      modifies this`cancelPending, this`remoteBusy, this`turnSettlementPending, this`generation, this`cancel,
        this`terminalCleanupOnUpdate, this`cleanupScheduled, this`owned, this`archivePhase
      ensures State() == AfterAnswered(old(State()), cancelled) && cancel.None?
      ensures !cancelled ==> terminalCleanupOnUpdate == (old(terminalCleanupOnUpdate) || Ephemeral(owned))
      ensures cancelled && old(cancel == Some(generation)) ==> generation == old(generation) + 1 && !remoteBusy
      ensures old(Closing(Snapshot())) ==> Closing(Snapshot())
    {
      Finalize(cancelled);
      if cancelled && Ephemeral(owned) {
        ScheduleArchive(false);
      }
      if !cancelled && Ephemeral(owned) {
        terminalCleanupOnUpdate := true;
      }
    }

    /** The deadline passed, or the call failed: the turn may still be running remotely. */
    method CancelExpired()
      requires cancel.Some? && !expired
      modifies this`terminalCleanupOnUpdate, this`expired
      ensures expired && State() == AfterExpired(old(State()))
      ensures terminalCleanupOnUpdate == (old(terminalCleanupOnUpdate) || Ephemeral(owned))
    {
      expired := true;
      if Ephemeral(owned) {
        terminalCleanupOnUpdate := true;
      }
    }

    /** The answer after the deadline. */
    method CancelLate(cancelled: bool)
      requires cancel.Some? && expired
      modifies this`cancelPending, this`remoteBusy, this`turnSettlementPending, this`generation, this`cancel
      ensures State() == AfterAnswered(old(State()), cancelled) && cancel.None?
      ensures Snapshot() ==
        if old(cancel == Some(generation)) then FinalizedFlags(old(Snapshot()), cancelled) else old(Snapshot())
    {
      Finalize(cancelled);
    }

    // --- archiving --------------------------------------------------------------------------------

    /** At most one scheduled archive task; a session already given to cleanup needs `recoverPending`. */
    method ScheduleArchive(recoverPending: bool)
      modifies this`cleanupScheduled, this`owned, this`archivePhase
      ensures State() == WithFlags(old(State()), ArchivingFlags(old(Snapshot()), recoverPending))
      ensures archivePhase == if cleanupScheduled && !old(cleanupScheduled) then Recording else old(archivePhase)
    {
      if owned.None? || cleanupScheduled || owned.value.state.Archived?
        || (!recoverPending && owned.value.state.PendingCleanup?)
      {
        return;
      }
      cleanupScheduled := true;
      owned := Some(owned.value.(state := PendingCleanup));
      archivePhase := Recording;
    }

    /** The ledger answered the archive task's first write; the record it returns replaces the old one. */
    method ArchiveRecorded(written: bool, activityLost: bool)
      requires archivePhase.Recording? && owned.Some?
      modifies this`owned, this`archivePhase, this`cleanupScheduled
      ensures State() == AfterRecorded(old(State()), written, activityLost)
    {
      if !written {
        cleanupScheduled, archivePhase := false, NoArchive;
        return;
      }
      owned := Some(owned.value.(state := PendingCleanup, activityLost := activityLost));
      archivePhase := Archiving;
    }

    /** The agent is archived, and the session gone; or it is not, and the session stays closing. */
    method ArchiveDone(succeeded: bool)
      requires archivePhase.Archiving?
      modifies this`disposed, this`generation, this`archivePhase, this`cleanupScheduled
      ensures State() == AfterArchive(old(State()), succeeded)
      ensures !cleanupScheduled && disposed == (old(disposed) || succeeded)
    {
      if succeeded {
        Dispose();
      }
      cleanupScheduled, archivePhase := false, NoArchive;
    }

    method Dispose()
      modifies this`disposed, this`generation
      ensures State() == Disposed(old(State()))
    {
      disposed := true;
      generation := generation + 1;
    }

    // --- recovery ---------------------------------------------------------------------------------

    /** Recovery comes to this session's record and finds the agent stopped. */
    method RecoveryFindsStopped()
      requires recovery.Due? && Ephemeral(owned)
      modifies this`recovery
      ensures State() == Next(old(State()), RecoveryArchives)
    {
      recovery := Recovering;
    }

    /** Recovery leaves the record as it is, or its archive task has ended; the session hears of neither. */
    method RecoveryLeaves()
      requires RecoveryAhead(State())
      modifies this`recovery
      ensures State() == old(State()).(recovery := PassedOver)
    {
      recovery := PassedOver;
    }

    // --- shutdown ---------------------------------------------------------------------------------

    /** From here on the bridge takes no request. */
    method CloseBridge()
      modifies this`open
      ensures State() == Next(old(State()), Shutdown)
    {
      open := false;
    }

    /** Shutdown reaches this session. */
    method CloseVisit()
      requires !open && closePhase.NotVisited?
      modifies this`observing, this`closePhase, this`disposed, this`generation
      ensures State() == AfterVisit(old(State()))
      ensures closePhase == (
        if Ephemeral(owned) && !owned.value.state.Archived? && !owned.value.state.PendingCleanup? then
          if remoteBusy || cancelPending then Marking else Refreshing
        else Finished)
      ensures closePhase.Finished? ==> disposed
    {
      observing := false;
      if Ephemeral(owned) && !owned.value.state.Archived? && !owned.value.state.PendingCleanup? {
        closePhase := if remoteBusy || cancelPending then Marking else Refreshing;
      } else {
        closePhase := Finished;
        Dispose();
      }
    }

    /** The agent's state is known: a finished agent is archived, any other only marked. */
    method CloseRefreshed(terminal: bool)
      requires closePhase.Refreshing? && owned.Some?
      modifies this`owned, this`closePhase
      ensures State() == AfterRefresh(old(State()), terminal)
      ensures closePhase == (if terminal then Cleaning else Marking) && (terminal ==> Closing(Snapshot()))
    {
      if terminal {
        owned := Some(owned.value.(state := PendingCleanup));
        closePhase := Cleaning;
      } else {
        closePhase := Marking;
      }
    }

    method CloseMarked(written: bool)
      requires closePhase.Marking? && owned.Some?
      modifies this`owned, this`closePhase, this`disposed, this`generation
      ensures State() == AfterMark(old(State()), written)
      ensures closePhase == (if written then Finished else Aborted) && (written ==> disposed && Closing(Snapshot()))
    {
      if !written {
        closePhase := Aborted;
        return;
      }
      owned := Some(owned.value.(state := PendingCleanup));
      closePhase := Finished;
      Dispose();
    }

    /** Shutdown's own archive task has ended, either way; a ledger error ends the shutdown itself. */
    method CloseCleaned(recorded: bool)
      requires closePhase.Cleaning?
      modifies this`closePhase, this`disposed, this`generation
      ensures State() == AfterClean(old(State()), recorded)
      ensures closePhase == if recorded then Finished else Aborted
    {
      if !recorded {
        closePhase := Aborted;
        return;
      }
      closePhase := Finished;
      Dispose();
    }
  }

  /** One event, ignored when nothing waits for it. */
  method Step(session: Session, event: Event)
    requires session.Valid()
    modifies session
    ensures session.Valid() && session.State() == Next(old(session.State()), event)
  {
    StaysSound(session.State(), event);
    match event
    case Prompt => var r := session.BeginTurn();
    case Settled(g, result) => if g in session.runs { session.RunSettled(g, result); }
    case GaveUp(g) => session.ObserverLeft(g);
    case Updated(status) => if !session.disposed { session.Update(status); }
    case AskCancel => if session.open && !session.disposed { var accepted := session.Cancel(); }
    case Answered(cancelled) =>
      if session.cancel.Some? {
        if session.expired { session.CancelLate(cancelled); } else { session.CancelAnswered(cancelled); }
      }
    case Expired => if session.cancel.Some? && !session.expired { session.CancelExpired(); }
    case Recorded(written, lost) =>
      if session.archivePhase.Recording? && session.owned.Some? { session.ArchiveRecorded(written, lost); }
    case ArchiveEnded(succeeded) => if session.archivePhase.Archiving? { session.ArchiveDone(succeeded); }
    case Shutdown => session.CloseBridge();
    case Visited => if !session.open && session.closePhase.NotVisited? { session.CloseVisit(); }
    case Refreshed(terminal) =>
      if session.closePhase.Refreshing? && session.owned.Some? { session.CloseRefreshed(terminal); }
    case Marked(written) => if session.closePhase.Marking? && session.owned.Some? { session.CloseMarked(written); }
    case Cleaned(recorded) => if session.closePhase.Cleaning? { session.CloseCleaned(recorded); }
    case RecoveryArchives => if session.recovery.Due? && Ephemeral(session.owned) { session.RecoveryFindsStopped(); }
    case RecoveryPasses => if session.recovery.Due? { session.RecoveryLeaves(); }
    case RecoveryEnds => if session.recovery.Recovering? { session.RecoveryLeaves(); }
  }

  /** `Life`'s states are sound, closing is final and an awaited cancellation is of the current generation. */
  lemma LifeIsOrderly(states: seq<SessionState>, events: seq<Event>)
    requires Life(states, events) && Sound(states[0])
    ensures forall s :: s in states ==> Sound(s)
    ensures forall i, j :: 0 <= i <= j < |states| && Closing(states[i].flags) ==> Closing(states[j].flags)
    ensures forall j {:trigger events[j]} :: 0 <= j < |events| && Closing(states[j].flags) && events[j].Prompt? ==>
      states[j + 1] == states[j]
    ensures forall s :: s in states && s.cancel.Some? && !s.disposed ==>
      s.cancel.value == s.flags.generation && s.flags.cancelPending
  {
    forall i | 0 <= i < |states| ensures Sound(states[i]) {
      LifeIsSound(states, events, i);
    }
    forall i, j | 0 <= i <= j < |states| && Closing(states[i].flags) ensures Closing(states[j].flags) {
      ClosingStays(states, events, i, j);
    }
    forall j | 0 <= j < |events| && Closing(states[j].flags) && events[j].Prompt? ensures states[j + 1] == states[j] {
      ClosingStays(states, events, j, j);
    }
  }

  /** At each point of a life two archive tasks can still meet exactly when it is at risk; a risk gone stays gone. */
  lemma LifeAtRisk(states: seq<SessionState>, events: seq<Event>)
    requires Life(states, events) && Sound(states[0])
    ensures forall s :: s in states ==> (MayArchiveTwice(s) <==> AtRisk(s))
    ensures forall i, j :: 0 <= i <= j < |states| && !AtRisk(states[i]) ==> !ArchivedTwice(states[j])
  {
    forall i | 0 <= i < |states| ensures MayArchiveTwice(states[i]) <==> AtRisk(states[i]) {
      LifeIsSound(states, events, i);
      ArchivesTwiceExactly(states[i]);
    }
    forall i, j | 0 <= i <= j < |states| && !AtRisk(states[i]) ensures !ArchivedTwice(states[j]) {
      NoRiskStays(states, events, i, j);
    }
  }

  /**
   * Over any life of a session: a superseded settlement changes nothing; a cancellation that is awaited is
   * for the current generation, so its late result finds no newer turn; once cleanup of a managed session has
   * begun it stays closing and never takes a turn again; and two archive tasks meet only after states at
   * risk, and can from every one of them.
   */
  method Live(owned: Option<Owned>, running: bool, status: Option<Status>, observing: bool, recovered: bool,
              supported: bool, listed: bool, events: seq<Event>)
    returns (states: seq<SessionState>)
    ensures |states| == |events| + 1
    ensures states[0] == Initial(owned, running, status, observing, recovered, supported, listed)
    ensures forall i {:trigger events[i]} :: 0 <= i < |events| ==> states[i + 1] == Next(states[i], events[i])
    ensures forall i, j :: 0 <= i <= j < |states| && Closing(states[i].flags) ==>
      Closing(states[j].flags) && (j < |events| && events[j].Prompt? ==> states[j + 1] == states[j])
    ensures forall s :: s in states && s.cancel.Some? && !s.disposed ==>
      s.cancel.value == s.flags.generation && s.flags.cancelPending
    ensures forall i :: 0 <= i < |events| && events[i].Settled? && events[i].g < states[i].flags.generation ==>
      states[i + 1].flags == states[i].flags
    ensures forall s :: s in states ==> (MayArchiveTwice(s) <==> AtRisk(s))
    ensures forall i, j :: 0 <= i <= j < |states| && !AtRisk(states[i]) ==> !ArchivedTwice(states[j])
  {
    var session := new Session(owned, running, status, observing, recovered, supported, listed);
    states := [session.State()];
    for n := 0 to |events|
      invariant fresh(session) && session.Valid() && |states| == n + 1 && states[n] == session.State()
      invariant states[0] == Initial(owned, running, status, observing, recovered, supported, listed)
      invariant Life(states, events[..n])
    {
      Step(session, events[n]);
      states := states + [session.State()];
    }
    assert events[..|events|] == events;
    LifeIsOrderly(states, events);
    LifeAtRisk(states, events);
  }

  /** A session taken over while its agent was still starting, and a bridge that shuts down. */
  method ArchivesTwice(supported: bool) returns (twice: bool)
    ensures twice
  {
    var owned := Some(Owned(Active, true, false));
    var session := new Session(owned, false, Some(Initializing), false, true, supported, false);
    session.CloseBridge();
    session.CloseVisit();
    session.CloseRefreshed(true);
    session.Update(Some(Idle));
    twice := ArchivedTwice(session.State());
  }
}
