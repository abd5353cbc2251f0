/**
 * What the events of a session come to, told event by event and for every session, managed or not: when the agent
 * is free again, when it is busy, what an answer leaves behind, and when an archive is scheduled.
 */
module TurnLaws {
  import opened Prelude
  import opened TurnStates

  /** A prompt now starts a turn of its own. */
  ghost predicate TurnBegins(s: SessionState) {
    var next := Next(s, Prompt);
    && next.flags.generation == s.flags.generation + 1 && next.runs == s.runs + {s.flags.generation + 1}
    && next.flags.remoteBusy && next.flags.settlementPending && next.flags.observing
    && !next.flags.terminalCleanupOnUpdate && next.flags.status == Some(Running)
    && next.flags.owned == s.flags.owned && next.flags.cleanupScheduled == s.flags.cleanupScheduled
    && next.archive == s.archive && next.cancel == s.cancel
  }

  /** Nothing in the bridge or the ledger stands in the way of a turn. */
  predicate TakesTurns(s: SessionState) {
    && s.open && !s.disposed && s.cancel.None?
    && (s.flags.owned.Some? ==>
          && !s.flags.cleanupScheduled && !s.flags.owned.value.activityLost
          && (s.flags.owned.value.state.PendingCreate? || s.flags.owned.value.state.Active?))
  }

  /** A prompt begins a turn exactly on a session that takes turns and is not busy; else it changes nothing. */
  lemma PromptsBeginTurns(s: SessionState)
    requires Sound(s)
    ensures TakesTurns(s) && !s.flags.remoteBusy ==> TurnBegins(s)
    ensures !(TakesTurns(s) && !s.flags.remoteBusy) ==> Next(s, Prompt) == s
  {
  }

  /** What a terminal report of an ephemeral session's agent schedules, if cleanup is not under way. */
  ghost predicate ArchiveStarts(before: SessionState, after: SessionState) {
    && after.flags.cleanupScheduled && after.archive.Recording?
    && before.flags.owned.Some? && after.flags.owned == Some(before.flags.owned.value.(state := PendingCleanup))
  }

  ghost predicate ArchiveUntouched(before: SessionState, after: SessionState) {
    && after.flags.cleanupScheduled == before.flags.cleanupScheduled && after.archive == before.archive
    && after.flags.owned == before.flags.owned
  }

  /** Nothing but what the agent does is touched. */
  ghost predicate LifeUntouched(before: SessionState, after: SessionState) {
    && after.open == before.open && after.disposed == before.disposed && after.close == before.close
    && after.recovery == before.recovery && after.supported == before.supported
  }

  /**
   * The newest turn has settled: nothing is awaited of it; its status is the one it brought, if any; and a session
   * whose agent has stopped is not busy, whoever owns it. An ephemeral one is archived when the result says so.
   */
  lemma SettlementIsHeard(s: SessionState, result: Option<Option<Status>>)
    requires Sound(s) && s.flags.generation in s.runs
    ensures var next := Next(s, Settled(s.flags.generation, result));
      var status := if result.Some? && result.value.Some? then result.value else s.flags.status;
      && !next.flags.settlementPending && !next.flags.observing && next.flags.status == status
      && next.flags.remoteBusy == (s.flags.remoteBusy && !Terminal(status))
      && next.flags.cancelPending == s.flags.cancelPending && next.flags.generation == s.flags.generation
      && next.flags.terminalCleanupOnUpdate == s.flags.terminalCleanupOnUpdate
      && next.runs == s.runs - {s.flags.generation} && next.cancel == s.cancel && next.expired == s.expired
      && LifeUntouched(s, next)
      && (if result.Some? && Terminal(result.value) && Ephemeral(s.flags.owned) && !s.flags.cleanupScheduled
            && !Given(s, Archived) && !Given(s, PendingCleanup)
          then ArchiveStarts(s, next) else ArchiveUntouched(s, next))
  {
  }

  /** Once the newest turn has settled with a stopped agent, the next prompt begins a turn if the session takes any. */
  lemma SettledTurnFrees(s: SessionState, status: Status)
    requires Sound(s) && s.flags.generation in s.runs && Terminal(Some(status))
    ensures var next := Next(s, Settled(s.flags.generation, Some(Some(status))));
      !next.flags.remoteBusy && !next.flags.settlementPending && (TakesTurns(next) ==> TurnBegins(next))
  {
    var event := Settled(s.flags.generation, Some(Some(status)));
    SettlementIsHeard(s, Some(Some(status)));
    StaysSound(s, event);
    PromptsBeginTurns(Next(s, event));
  }

  /** The settlement of an older turn only takes it off the list. */
  lemma OldSettlementIsIgnored(s: SessionState, g: nat, result: Option<Option<Status>>)
    requires g != s.flags.generation
    ensures Next(s, Settled(g, result)) == s.(runs := s.runs - {g})
  {
    if g !in s.runs {
      assert s.runs - {g} == s.runs;
    }
  }

  /** A status report, field by field: what is awaited of a turn or a cancellation is not ended by it. */
  lemma UpdateIsHeard(s: SessionState, status: Option<Status>)
    requires Sound(s) && !s.disposed
    ensures var next := Next(s, Updated(status));
      var starts := status == Some(Running) || status == Some(Initializing);
      var waited := s.flags.cancelPending || (s.flags.settlementPending && !s.flags.terminalCleanupOnUpdate);
      var cleans := Terminal(status) && s.flags.terminalCleanupOnUpdate && Ephemeral(s.flags.owned);
      && next.flags.status == (if status.Some? then status else s.flags.status)
      && next.flags.remoteBusy ==
         (if starts then true else if Terminal(status) && !waited then false else s.flags.remoteBusy)
      && next.flags.observing == (s.flags.observing && !Terminal(status))
      && next.flags.settlementPending == (s.flags.settlementPending && !cleans)
      && next.flags.cancelPending == s.flags.cancelPending && next.flags.generation == s.flags.generation
      && next.flags.terminalCleanupOnUpdate == s.flags.terminalCleanupOnUpdate
      && next.runs == s.runs && next.cancel == s.cancel && next.expired == s.expired && LifeUntouched(s, next)
      && (if cleans && !s.flags.cleanupScheduled && !Given(s, Archived) then ArchiveStarts(s, next)
          else ArchiveUntouched(s, next))
  {
  }

  /** A terminal report that nothing is awaited behind frees the session. */
  lemma TerminalUpdateFrees(s: SessionState, status: Status)
    requires Sound(s) && !s.disposed && Terminal(Some(status)) && !s.flags.cancelPending
    requires s.flags.settlementPending ==> s.flags.terminalCleanupOnUpdate
    ensures var next := Next(s, Updated(Some(status)));
      !next.flags.remoteBusy && (TakesTurns(next) ==> TurnBegins(next))
  {
    UpdateIsHeard(s, Some(status));
    StaysSound(s, Updated(Some(status)));
    PromptsBeginTurns(Next(s, Updated(Some(status))));
  }

  /** The answer to the cancellation of the present turn, in time or late. */
  lemma CancellationIsAnswered(s: SessionState, cancelled: bool)
    requires Sound(s) && !s.disposed && s.cancel.Some?
    ensures var next := Next(s, Answered(cancelled));
      && next.cancel.None? && !next.flags.cancelPending
      && next.flags.generation == s.flags.generation + (if cancelled then 1 else 0)
      && next.flags.remoteBusy == (s.flags.remoteBusy && !cancelled && !Terminal(s.flags.status))
      && next.flags.settlementPending == (s.flags.settlementPending && !cancelled)
      && next.flags.terminalCleanupOnUpdate ==
           (s.flags.terminalCleanupOnUpdate || (!cancelled && !s.expired && Ephemeral(s.flags.owned)))
      && next.flags.status == s.flags.status && next.runs == s.runs && LifeUntouched(s, next)
      && (if cancelled && !s.expired && Ephemeral(s.flags.owned) && !s.flags.cleanupScheduled
            && !Given(s, Archived) && !Given(s, PendingCleanup)
          then ArchiveStarts(s, next) else ArchiveUntouched(s, next))
  {
  }

  /** A confirmed cancellation frees the session; the turn it ended can no longer be heard. */
  lemma ConfirmedCancelFrees(s: SessionState)
    requires Sound(s) && !s.disposed && s.cancel.Some?
    ensures var next := Next(s, Answered(true));
      && !next.flags.remoteBusy && !next.flags.cancelPending && next.flags.generation !in next.runs
      && (TakesTurns(next) ==> TurnBegins(next))
  {
    CancellationIsAnswered(s, true);
    StaysSound(s, Answered(true));
    PromptsBeginTurns(Next(s, Answered(true)));
  }

  /** A cancel request: refused while another is under way, sent to a backend that can stop the turn, else over. */
  lemma CancelIsAsked(s: SessionState)
    requires Sound(s) && s.open && !s.disposed
    ensures s.flags.cancelPending ==> Next(s, AskCancel) == s
    ensures !s.flags.cancelPending ==>
      var next := Next(s, AskCancel);
      var sent := s.flags.remoteBusy && s.supported;
      && next.cancel == (if sent then Some(s.flags.generation) else None) && next.flags.cancelPending == sent
      && (sent ==> !next.expired) && !next.flags.observing
      && next.flags.terminalCleanupOnUpdate ==
           (s.flags.terminalCleanupOnUpdate || (s.flags.remoteBusy && !s.supported && Ephemeral(s.flags.owned)))
      && next.flags.remoteBusy == s.flags.remoteBusy && next.flags.settlementPending == s.flags.settlementPending
      && next.flags.status == s.flags.status && next.flags.generation == s.flags.generation && next.runs == s.runs
      && LifeUntouched(s, next) && ArchiveUntouched(s, next)
  {
  }

  /** The archive task: its intent is recorded or it is over, and it ends with the session gone or still closing. */
  lemma ArchiveGoesOn(s: SessionState)
    requires Sound(s)
    ensures s.archive.Recording? ==> forall lost ::
      var next := Next(s, Recorded(true, lost));
      next.archive.Archiving? && next.flags.cleanupScheduled && Given(next, PendingCleanup)
      && next.flags.owned.value.activityLost == lost && next.disposed == s.disposed
    ensures s.archive.Recording? ==> forall lost ::
      var next := Next(s, Recorded(false, lost));
      next.archive.NoArchive? && !next.flags.cleanupScheduled && next.flags.owned == s.flags.owned
    ensures s.archive.Archiving? ==> forall succeeded ::
      var next := Next(s, ArchiveEnded(succeeded));
      next.archive.NoArchive? && !next.flags.cleanupScheduled && next.disposed == (s.disposed || succeeded)
      && next.flags.generation == s.flags.generation + (if succeeded then 1 else 0) && next.flags.owned == s.flags.owned
  {
  }

  /** Shutdown's visit: a live ephemeral session is looked at or, if busy, only marked; any other is given up. */
  lemma ShutdownVisits(s: SessionState)
    requires Sound(s) && !s.open && s.close.NotVisited?
    ensures var next := Next(s, Visited);
      var kept := Ephemeral(s.flags.owned) && !Given(s, Archived) && !Given(s, PendingCleanup);
      && !next.flags.observing && next.disposed == (s.disposed || !kept)
      && next.close ==
         (if !kept then Finished else if s.flags.remoteBusy || s.flags.cancelPending then Marking else Refreshing)
      && next.flags.generation == s.flags.generation + (if kept then 0 else 1)
      && ArchiveUntouched(s, next)
  {
  }
}
