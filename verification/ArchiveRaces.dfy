/**
 * When two tasks archive the agent of one session at once. There are three: the one a session
 * schedules for itself, shutdown's and recovery's. A state from which two of them can meet is
 * told exactly, by what the session can read of itself.
 */
module ArchiveRaces {
  import opened Prelude
  import opened TurnStates

  /** Two tasks archive the agent at once. */
  predicate ArchivedTwice(s: SessionState) {
    || (s.flags.cleanupScheduled && s.close.Cleaning?)
    || (s.flags.cleanupScheduled && s.recovery.Recovering?)
    || (s.close.Cleaning? && s.recovery.Recovering?)
  }

  function After(s: SessionState, events: seq<Event>): SessionState
    decreases |events|
  {
    if events == [] then s else After(Next(s, events[0]), events[1..])
  }

  ghost predicate MayArchiveTwice(s: SessionState) {
    exists events: seq<Event> :: ArchivedTwice(After(s, events))
  }

  // --- the condition --------------------------------------------------------------------------------

  predicate RecoveryAhead(s: SessionState) {
    s.recovery.Due? || s.recovery.Recovering?
  }

  predicate TurnRuns(s: SessionState) {
    s.flags.generation in s.runs
  }

  /** The session archives itself, or is still told of an agent that has stopped. */
  predicate SchedulingAhead(s: SessionState) {
    s.flags.cleanupScheduled
    || (!s.disposed && (s.flags.terminalCleanupOnUpdate || s.cancel.Some? || s.open
                        || (TurnRuns(s) && !Given(s, PendingCleanup))))
  }

  /** Shutdown archives the agent, or is still to reach the session and may find the agent stopped. */
  predicate ShutdownAhead(s: SessionState) {
    s.close.Cleaning? || s.close.Refreshing? || (s.close.NotVisited? && !s.disposed && !Given(s, PendingCleanup))
  }

  /** Shutdown can get to archive the agent with the session's own task scheduled or still to come. */
  predicate ShutdownMeetsScheduling(s: SessionState) {
    match s.close
    case Cleaning => s.flags.cleanupScheduled || (!s.disposed && s.flags.terminalCleanupOnUpdate)
    case Refreshing =>
      s.flags.cleanupScheduled
      || (!s.disposed && (s.flags.terminalCleanupOnUpdate || (TurnRuns(s) && !Given(s, PendingCleanup))))
    case NotVisited => !s.disposed && !Given(s, PendingCleanup) && CanStopWaiting(s)
    case _ => false
  }

  /** Before shutdown reaches it, the session can be quiet and yet told to clean up on an update. */
  predicate CanStopWaiting(s: SessionState) {
    || s.cancel.Some?
    || (s.flags.terminalCleanupOnUpdate && (!s.flags.remoteBusy || (TurnRuns(s) && Terminal(s.flags.status))))
    || (s.open && (s.supported || (!s.flags.terminalCleanupOnUpdate && (TurnRuns(s) || RunAdmitted(s.flags)))))
  }

  predicate AtRisk(s: SessionState) {
    && Ephemeral(s.flags.owned) && !Given(s, Archived)
    && ((RecoveryAhead(s) && (SchedulingAhead(s) || ShutdownAhead(s))) || ShutdownMeetsScheduling(s))
  }

  // --- no other state leads there ---------------------------------------------------------------------

  lemma SettledLeavesRisk(s: SessionState, g: nat, result: Option<Option<Status>>)
    requires Sound(s) && g in s.runs && AtRisk(AfterSettled(s, g, result))
    ensures AtRisk(s)
  {
  }

  lemma UpdatedLeavesRisk(s: SessionState, status: Option<Status>)
    requires Sound(s) && !s.disposed && AtRisk(WithFlags(s, UpdatedFlags(s.flags, status)))
    ensures AtRisk(s)
  {
  }

  lemma AskCancelLeavesRisk(s: SessionState)
    requires Sound(s) && s.open && !s.disposed && AtRisk(AfterAskCancel(s))
    ensures AtRisk(s)
  {
  }

  lemma AnsweredLeavesRisk(s: SessionState, cancelled: bool)
    requires Sound(s) && s.cancel.Some? && AtRisk(AfterAnswered(s, cancelled))
    ensures AtRisk(s)
  {
  }

  lemma RecordedLeavesRisk(s: SessionState, written: bool, activityLost: bool)
    requires Sound(s) && s.archive.Recording? && AtRisk(AfterRecorded(s, written, activityLost))
    ensures AtRisk(s)
  {
  }

  lemma ArchiveEndedLeavesRisk(s: SessionState, succeeded: bool)
    requires Sound(s) && s.archive.Archiving? && AtRisk(AfterArchive(s, succeeded))
    ensures AtRisk(s)
  {
  }

  lemma VisitedLeavesRisk(s: SessionState)
    requires Sound(s) && !s.open && s.close.NotVisited? && AtRisk(AfterVisit(s))
    ensures AtRisk(s)
  {
  }

  lemma ShutdownLeavesRisk(s: SessionState, event: Event)
    requires Sound(s) && (event.Shutdown? || event.Refreshed? || event.Marked? || event.Cleaned?)
    requires AtRisk(Next(s, event))
    ensures AtRisk(s)
  {
  }

  lemma StepLeavesRisk(s: SessionState, event: Event)
    requires Sound(s) && AtRisk(Next(s, event))
    ensures AtRisk(s)
  {
    match event
    case Settled(g, result) => if g in s.runs { SettledLeavesRisk(s, g, result); }
    case Updated(status) => if !s.disposed { UpdatedLeavesRisk(s, status); }
    case AskCancel => if s.open && !s.disposed { AskCancelLeavesRisk(s); }
    case Answered(cancelled) => if s.cancel.Some? { AnsweredLeavesRisk(s, cancelled); }
    case Recorded(written, lost) =>
      if s.archive.Recording? && s.flags.owned.Some? { RecordedLeavesRisk(s, written, lost); }
    case ArchiveEnded(succeeded) => if s.archive.Archiving? { ArchiveEndedLeavesRisk(s, succeeded); }
    case Shutdown => ShutdownLeavesRisk(s, event);
    case Visited => if !s.open && s.close.NotVisited? { VisitedLeavesRisk(s); }
    case Refreshed(_) => ShutdownLeavesRisk(s, event);
    case Marked(_) => ShutdownLeavesRisk(s, event);
    case Cleaned(_) => ShutdownLeavesRisk(s, event);
    case _ =>
  }

  lemma {:induction false} OnlyFromRisk(s: SessionState, events: seq<Event>)
    requires Sound(s) && ArchivedTwice(After(s, events))
    ensures AtRisk(s)
    decreases |events|
  {
    if events != [] {
      StaysSound(s, events[0]);
      OnlyFromRisk(Next(s, events[0]), events[1..]);
      StepLeavesRisk(s, events[0]);
    }
  }

  /** A life that is at no risk at one point has never two archive tasks from there on. */
  lemma {:induction false} NoRiskStays(states: seq<SessionState>, events: seq<Event>, i: nat, j: nat)
    requires Life(states, events) && Sound(states[0]) && i <= j < |states|
    requires !AtRisk(states[i])
    ensures !AtRisk(states[j]) && !ArchivedTwice(states[j])
    decreases j
  {
    LifeIsSound(states, events, j);
    if i < j {
      NoRiskStays(states, events, i, j - 1);
      LifeIsSound(states, events, j - 1);
      if AtRisk(states[j]) { StepLeavesRisk(states[j - 1], events[j - 1]); }
    }
  }

  // --- every such state leads there -------------------------------------------------------------------

  lemma Now(s: SessionState)
    requires ArchivedTwice(s)
    ensures MayArchiveTwice(s)
  {
    assert After(s, []) == s;
  }

  lemma Leads(s: SessionState, event: Event)
    requires MayArchiveTwice(Next(s, event))
    ensures MayArchiveTwice(s)
  {
    var events: seq<Event> :| ArchivedTwice(After(Next(s, event), events));
    assert ([event] + events)[1..] == events;
    assert After(s, [event] + events) == After(Next(s, event), events);
  }

  /** The last step of most of these runs: a terminal update finds the session told to clean up. */
  lemma UpdateSchedules(s: SessionState)
    requires Sound(s) && !s.disposed && s.flags.terminalCleanupOnUpdate
    requires Ephemeral(s.flags.owned) && !Given(s, Archived)
    requires s.close.Cleaning? || s.recovery.Recovering?
    ensures MayArchiveTwice(s)
  {
    Now(Next(s, Updated(Some(Idle))));
    Leads(s, Updated(Some(Idle)));
  }

  /** Shutdown archives, and the session is told to clean up or already does. */
  lemma CleaningMeets(s: SessionState)
    requires Sound(s) && s.close.Cleaning? && ShutdownMeetsScheduling(s)
    ensures MayArchiveTwice(s)
  {
    if s.flags.cleanupScheduled { Now(s); } else { UpdateSchedules(s); }
  }

  lemma RefreshingMeets(s: SessionState)
    requires Sound(s) && s.close.Refreshing? && ShutdownMeetsScheduling(s)
    ensures MayArchiveTwice(s)
    decreases !s.flags.cleanupScheduled
  {
    if s.flags.cleanupScheduled || (!s.disposed && s.flags.terminalCleanupOnUpdate) {
      StaysSound(s, Refreshed(true));
      CleaningMeets(Next(s, Refreshed(true)));
      Leads(s, Refreshed(true));
    } else {
      var settled := Settled(s.flags.generation, Some(Some(Idle)));
      StaysSound(s, settled);
      RefreshingMeets(Next(s, settled));
      Leads(s, settled);
    }
  }

  /** Quiet and told to clean up on an update: shutdown asks for the agent's state and may archive it. */
  lemma QuietMeets(s: SessionState)
    requires Sound(s) && s.close.NotVisited? && !s.disposed
    requires Ephemeral(s.flags.owned) && !Given(s, Archived) && !Given(s, PendingCleanup)
    requires s.flags.terminalCleanupOnUpdate && !s.flags.remoteBusy && s.cancel.None?
    ensures MayArchiveTwice(s)
  {
    var closing := Next(s, Shutdown);
    StaysSound(s, Shutdown);
    StaysSound(closing, Visited);
    RefreshingMeets(Next(closing, Visited));
    Leads(closing, Visited);
    Leads(s, Shutdown);
  }

  /** A cancellation that is answered too late stops the turn and schedules nothing. */
  lemma LateAnswerMeets(s: SessionState)
    requires Sound(s) && s.close.NotVisited? && !s.disposed
    requires Ephemeral(s.flags.owned) && !Given(s, Archived) && !Given(s, PendingCleanup)
    requires s.cancel.Some?
    ensures MayArchiveTwice(s)
    decreases !s.expired
  {
    if s.expired {
      StaysSound(s, Answered(true));
      QuietMeets(Next(s, Answered(true)));
      Leads(s, Answered(true));
    } else {
      StaysSound(s, Expired);
      LateAnswerMeets(Next(s, Expired));
      Leads(s, Expired);
    }
  }

  /** A turn whose agent has stopped is settled without a result. */
  lemma RejectedRunMeets(s: SessionState)
    requires Sound(s) && s.close.NotVisited? && !s.disposed
    requires Ephemeral(s.flags.owned) && !Given(s, Archived) && !Given(s, PendingCleanup)
    requires s.flags.terminalCleanupOnUpdate && s.cancel.None? && TurnRuns(s) && Terminal(s.flags.status)
    ensures MayArchiveTwice(s)
  {
    var settled := Settled(s.flags.generation, None);
    StaysSound(s, settled);
    QuietMeets(Next(s, settled));
    Leads(s, settled);
  }

  /** A client that can ask the agent to stop. */
  lemma SupportedClientMeets(s: SessionState)
    requires Sound(s) && s.open && s.supported && !s.disposed && s.cancel.None?
    requires Ephemeral(s.flags.owned) && !Given(s, Archived) && !Given(s, PendingCleanup)
    ensures MayArchiveTwice(s)
    decreases !s.flags.remoteBusy
  {
    var event := if s.flags.remoteBusy then AskCancel else Updated(Some(Running));
    StaysSound(s, event);
    if s.flags.remoteBusy { LateAnswerMeets(Next(s, event)); } else { SupportedClientMeets(Next(s, event)); }
    Leads(s, event);
  }

  /** One that cannot: the agent stops, the turn is still awaited, and the client cancels its observation. */
  lemma AwaitedTurnMeets(s: SessionState)
    requires Sound(s) && s.open && !s.supported && !s.disposed && !s.flags.terminalCleanupOnUpdate && TurnRuns(s)
    requires Ephemeral(s.flags.owned) && !Given(s, Archived) && !Given(s, PendingCleanup)
    ensures MayArchiveTwice(s)
  {
    var stopped := Next(s, Updated(Some(Idle)));
    StaysSound(s, Updated(Some(Idle)));
    StaysSound(stopped, AskCancel);
    RejectedRunMeets(Next(stopped, AskCancel));
    Leads(stopped, AskCancel);
    Leads(s, Updated(Some(Idle)));
  }

  lemma UnsupportedClientMeets(s: SessionState)
    requires Sound(s) && s.open && !s.supported && !s.disposed && !s.flags.terminalCleanupOnUpdate
    requires Ephemeral(s.flags.owned) && !Given(s, Archived) && !Given(s, PendingCleanup)
    requires TurnRuns(s) || RunAdmitted(s.flags)
    ensures MayArchiveTwice(s)
  {
    if TurnRuns(s) {
      AwaitedTurnMeets(s);
    } else {
      var quiet := Next(s, Updated(Some(Idle)));
      StaysSound(s, Updated(Some(Idle)));
      StaysSound(quiet, Prompt);
      AwaitedTurnMeets(Next(quiet, Prompt));
      Leads(quiet, Prompt);
      Leads(s, Updated(Some(Idle)));
    }
  }

  lemma NotVisitedMeets(s: SessionState)
    requires Sound(s) && Ephemeral(s.flags.owned) && !Given(s, Archived)
    requires s.close.NotVisited? && ShutdownMeetsScheduling(s)
    ensures MayArchiveTwice(s)
  {
    if s.cancel.Some? {
      LateAnswerMeets(s);
    } else if s.flags.terminalCleanupOnUpdate && !s.flags.remoteBusy {
      QuietMeets(s);
    } else if s.flags.terminalCleanupOnUpdate && TurnRuns(s) && Terminal(s.flags.status) {
      RejectedRunMeets(s);
    } else if s.supported {
      SupportedClientMeets(s);
    } else {
      UnsupportedClientMeets(s);
    }
  }

  /** Recovery archives, and the session still hears of a stopped agent. */
  lemma SchedulingMeetsRecovery(s: SessionState)
    requires Sound(s) && Ephemeral(s.flags.owned) && !Given(s, Archived)
    requires s.recovery.Recovering? && SchedulingAhead(s)
    ensures MayArchiveTwice(s)
    decreases !s.flags.cleanupScheduled && !s.flags.terminalCleanupOnUpdate, s.cancel.None?, !s.flags.remoteBusy
  {
    if s.flags.cleanupScheduled {
      Now(s);
    } else if s.flags.terminalCleanupOnUpdate {
      UpdateSchedules(s);
    } else {
      var event := if s.cancel.Some? then Expired
        else if TurnRuns(s) && !Given(s, PendingCleanup) then Settled(s.flags.generation, Some(Some(Idle)))
        else if s.flags.remoteBusy then AskCancel else Updated(Some(Running));
      StaysSound(s, event);
      SchedulingMeetsRecovery(Next(s, event));
      Leads(s, event);
    }
  }

  /** Recovery archives, and shutdown is still to reach the session. */
  lemma ShutdownMeetsRecovery(s: SessionState)
    requires Sound(s) && Ephemeral(s.flags.owned) && !Given(s, Archived)
    requires s.recovery.Recovering? && ShutdownAhead(s)
    ensures MayArchiveTwice(s)
    decreases s.close.NotVisited?
  {
    if s.close.Cleaning? {
      Now(s);
    } else if s.close.Refreshing? {
      Now(Next(s, Refreshed(true)));
      Leads(s, Refreshed(true));
    } else if SchedulingAhead(s) {
      SchedulingMeetsRecovery(s);
    } else {
      var quiet := Next(s, Updated(Some(Idle)));
      StaysSound(s, Updated(Some(Idle)));
      var reached := Next(quiet, Visited);
      StaysSound(quiet, Visited);
      ShutdownMeetsRecovery(reached);
      Leads(quiet, Visited);
      Leads(s, Updated(Some(Idle)));
    }
  }

  lemma RiskLeads(s: SessionState)
    requires Sound(s) && AtRisk(s)
    ensures MayArchiveTwice(s)
    decreases s.recovery.Due?
  {
    if ShutdownMeetsScheduling(s) {
      match s.close
      case Cleaning => CleaningMeets(s);
      case Refreshing => RefreshingMeets(s);
      case NotVisited => NotVisitedMeets(s);
    } else if s.recovery.Due? {
      StaysSound(s, RecoveryArchives);
      RiskLeads(Next(s, RecoveryArchives));
      Leads(s, RecoveryArchives);
    } else if SchedulingAhead(s) {
      SchedulingMeetsRecovery(s);
    } else {
      ShutdownMeetsRecovery(s);
    }
  }

  // --- the two together ---------------------------------------------------------------------------------

  /** Two tasks can come to archive one agent exactly in the states at risk. */
  lemma ArchivesTwiceExactly(s: SessionState)
    requires Sound(s)
    ensures MayArchiveTwice(s) <==> AtRisk(s)
  {
    if MayArchiveTwice(s) {
      var events: seq<Event> :| ArchivedTwice(After(s, events));
      OnlyFromRisk(s, events);
    }
    if AtRisk(s) {
      RiskLeads(s);
    }
  }

  /**
   * Once shutdown is archiving: exactly when the session's own task is scheduled, or a live session
   * is told to start one on an update, or recovery is at the record or still to come to it.
   */
  lemma ShutdownArchivesAlone(s: SessionState)
    requires Sound(s) && s.close.Cleaning?
    ensures !MayArchiveTwice(s) <==>
      !s.flags.cleanupScheduled && (s.disposed || !s.flags.terminalCleanupOnUpdate) && !RecoveryAhead(s)
  {
    ArchivesTwiceExactly(s);
  }

  /** Outside shutdown, the session's own task is joined only by recovery's. */
  lemma ScheduledArchivesAlone(s: SessionState)
    requires Sound(s) && s.flags.cleanupScheduled && s.close.NotVisited?
    ensures MayArchiveTwice(s) <==> RecoveryAhead(s)
  {
    ArchivesTwiceExactly(s);
  }

  /** A session that is not given to cleanup, or that can be resumed, is archived by no two tasks. */
  lemma ResumableNeverTwice(s: SessionState)
    requires Sound(s) && !Ephemeral(s.flags.owned)
    ensures !MayArchiveTwice(s)
  {
    ArchivesTwiceExactly(s);
  }

  /** Nothing rules it out for an ephemeral session that this bridge started, whatever the backend can do. */
  lemma StartedSessionAtRisk(running: bool, status: Option<Status>, observing: bool, supported: bool, listed: bool)
    ensures MayArchiveTwice(
      Initial(Some(Owned(Active, true, false)), running, status, observing, false, supported, listed))
  {
    var s := Initial(Some(Owned(Active, true, false)), running, status, observing, false, supported, listed);
    InitialSound(s.flags.owned, running, status, observing, false, supported, listed);
    ArchivesTwiceExactly(s);
  }
}
