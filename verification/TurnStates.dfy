/**
 * One bridge session as a state machine: turns, cancellations, updates from the remote agent,
 * archiving, recovery and shutdown. An event is one stretch of the bridge's code without an
 * await; whatever was awaited comes back in any order.
 */
module TurnStates {
  import opened Prelude

  datatype Status = Idle | Error | Closed | Running | Initializing | Permission

  predicate Terminal(status: Option<Status>) {
    status.Some? && (status.value.Idle? || status.value.Error? || status.value.Closed?)
  }

  datatype OwnedState = PendingCreate | Active | PendingCleanup | ArchiveFailed | Archived

  /** The ledger's record of a managed session. */
  datatype Owned = Owned(state: OwnedState, ephemeral: bool, activityLost: bool)

  /** How far shutdown has got with this session; `Cleaning` is its own archive task. */
  datatype ClosePhase = NotVisited | Refreshing | Marking | Cleaning | Finished | Aborted

  /** Recovery's pass over a record it found at start: still to come, archiving the agent, or done. */
  datatype RecoveryPhase = NotListed | Due | Recovering | PassedOver

  /** The scheduled archive task: recording its intent in the ledger, then archiving remotely. */
  datatype ArchivePhase = NoArchive | Recording | Archiving

  /** Everything a settlement or a cancellation could touch. */
  datatype Flags = Flags(
    remoteBusy: bool,
    cancelPending: bool,
    settlementPending: bool,
    observing: bool,
    terminalCleanupOnUpdate: bool,
    cleanupScheduled: bool,
    status: Option<Status>,
    generation: nat,
    owned: Option<Owned>)

  /** A scheduled archive: only for a managed session, not twice, and not again unless recovering. */
  function ArchivingFlags(flags: Flags, recoverPending: bool): Flags {
    if flags.owned.None? || flags.cleanupScheduled || flags.owned.value.state.Archived?
      || (!recoverPending && flags.owned.value.state.PendingCleanup?)
    then flags
    else flags.(cleanupScheduled := true, owned := Some(flags.owned.value.(state := PendingCleanup)))
  }

  function HeardFlags(flags: Flags, result: Option<Option<Status>>): Flags {
    var status := if result.Some? && result.value.Some? then result.value else flags.status;
    flags.(settlementPending := false, observing := false, status := status,
           remoteBusy := flags.remoteBusy && !Terminal(status))
  }

  /** The newest turn's run has ended; an ephemeral session whose agent has stopped is archived. */
  function SettledFlags(flags: Flags, result: Option<Option<Status>>): Flags {
    if result.Some? && Terminal(result.value) && Ephemeral(flags.owned)
    then ArchivingFlags(HeardFlags(flags, result), false) else HeardFlags(flags, result)
  }

  /** The remote agent reported its status; a terminal one may still have to wait for its turn. */
  function ReportedFlags(flags: Flags, status: Option<Status>): Flags {
    var starts := status == Some(Running) || status == Some(Initializing);
    var stops :=
      Terminal(status) && !flags.cancelPending && (!flags.settlementPending || flags.terminalCleanupOnUpdate);
    flags.(
      status := if status.Some? then status else flags.status,
      remoteBusy := starts || (flags.remoteBusy && !stops),
      observing := flags.observing && !Terminal(status))
  }

  /** An update in full: the report, and the archive a recovered session was waiting to start. */
  function UpdatedFlags(flags: Flags, status: Option<Status>): Flags {
    if Terminal(status) && flags.terminalCleanupOnUpdate && Ephemeral(flags.owned)
    then ArchivingFlags(ReportedFlags(flags, status).(settlementPending := false), true)
    else ReportedFlags(flags, status)
  }

  /** The backend has answered a cancellation of the current generation. */
  function FinalizedFlags(flags: Flags, cancelled: bool): Flags {
    if cancelled
    then flags.(cancelPending := false, remoteBusy := false, settlementPending := false,
                generation := flags.generation + 1)
    else flags.(cancelPending := false, remoteBusy := flags.remoteBusy && !Terminal(flags.status))
  }

  predicate Ephemeral(owned: Option<Owned>) {
    owned.Some? && owned.value.ephemeral
  }

  /** Cleanup of a managed session has begun, or the ledger says it is over. */
  predicate Closing(flags: Flags) {
    flags.owned.Some? && (flags.cleanupScheduled || flags.owned.value.state.PendingCleanup?
                          || flags.owned.value.state.ArchiveFailed? || flags.owned.value.state.Archived?)
  }

  /** A managed session takes turns until it is closing or its activity is lost. */
  predicate RunAdmitted(flags: Flags) {
    !Closing(flags) && !(flags.owned.Some? && flags.owned.value.activityLost)
  }

  datatype SessionState = SessionState(
    flags: Flags,
    /** The backend can stop a turn remotely. */
    supported: bool,
    /** The bridge takes requests. */
    open: bool,
    /** Unsubscribed and given up. */
    disposed: bool,
    close: ClosePhase,
    archive: ArchivePhase,
    recovery: RecoveryPhase,
    /** Turns whose run has not settled yet, by generation. */
    runs: set<nat>,
    /** The remote cancellation still to answer, by the generation it was asked for. */
    cancel: Option<nat>,
    /** Its deadline has passed. */
    expired: bool)

  datatype Event =
    | Prompt
    | Settled(g: nat, result: Option<Option<Status>>)
    | GaveUp(g: nat)
    | Updated(status: Option<Status>)
    | AskCancel
    | Answered(cancelled: bool)
    | Expired
    | Recorded(written: bool, activityLost: bool)
    | ArchiveEnded(succeeded: bool)
    | Shutdown
    | Visited
    | Refreshed(terminal: bool)
    | Marked(written: bool)
    | Cleaned(recorded: bool)
    | RecoveryArchives
    | RecoveryPasses
    | RecoveryEnds

  // --- one step -------------------------------------------------------------------------------------

  /**
   * A started, resumed or, with `recovered`, taken over session. Recovery may have its record listed; that of a
   * session it takes over it has just passed.
   */
  function Initial(owned: Option<Owned>, running: bool, status: Option<Status>, observing: bool, recovered: bool,
        supported: bool, listed: bool): SessionState
  {
    SessionState(Flags(running, false, false, observing, recovered, false, status, 0, owned), supported, true, false,
                 NotVisited, NoArchive, if recovered then PassedOver else if listed then Due else NotListed,
                 {}, None, false)
  }

  /** New flags; an archive task that they schedule starts by recording its intent. */
  function WithFlags(s: SessionState, flags: Flags): SessionState {
    s.(flags := flags, archive := if flags.cleanupScheduled && !s.flags.cleanupScheduled then Recording else s.archive)
  }

  predicate CanBegin(s: SessionState) {
    s.open && !s.disposed && RunAdmitted(s.flags) && !s.flags.remoteBusy && !s.flags.cancelPending
  }

  function BegunFlags(flags: Flags): Flags {
    flags.(remoteBusy := true, terminalCleanupOnUpdate := false, settlementPending := true, status := Some(Running),
           observing := true, generation := flags.generation + 1)
  }

  function Begun(s: SessionState): SessionState {
    s.(flags := BegunFlags(s.flags), runs := s.runs + {s.flags.generation + 1})
  }

  /** Only the newest generation's settlement is heard. */
  function AfterSettled(s: SessionState, g: nat, result: Option<Option<Status>>): SessionState {
    var next := s.(runs := s.runs - {g});
    if g == s.flags.generation then WithFlags(next, SettledFlags(s.flags, result)) else next
  }

  /** A cancel request up to its await; without a turn to stop remotely it is over at once. */
  function AfterAskCancel(s: SessionState): SessionState {
    if s.flags.cancelPending then s
    else if s.flags.remoteBusy && s.supported then
      s.(flags := s.flags.(cancelPending := true, observing := false),
         cancel := Some(s.flags.generation), expired := false)
    else s.(flags := s.flags.(cancelPending := false, observing := false,
      terminalCleanupOnUpdate := s.flags.terminalCleanupOnUpdate || (s.flags.remoteBusy && Ephemeral(s.flags.owned))))
  }

  /** The backend's answer; it is heard only by the generation it was asked for. */
  function Finalized(s: SessionState, cancelled: bool): SessionState {
    if s.cancel == Some(s.flags.generation)
    then s.(cancel := None, flags := FinalizedFlags(s.flags, cancelled)) else s.(cancel := None)
  }

  /** In time, the answer also decides how an ephemeral session ends. */
  function AfterAnswered(s: SessionState, cancelled: bool): SessionState {
    var final := Finalized(s, cancelled);
    if s.expired || !Ephemeral(s.flags.owned) then final
    else if cancelled then WithFlags(final, ArchivingFlags(final.flags, false))
    else final.(flags := final.flags.(terminalCleanupOnUpdate := true))
  }

  function AfterExpired(s: SessionState): SessionState {
    s.(expired := true, flags := s.flags.(
         terminalCleanupOnUpdate := s.flags.terminalCleanupOnUpdate || Ephemeral(s.flags.owned)))
  }

  function WithOwnedState(flags: Flags, state: OwnedState): Flags
    requires flags.owned.Some?
  {
    flags.(owned := Some(flags.owned.value.(state := state)))
  }

  function AfterRecorded(s: SessionState, written: bool, activityLost: bool): SessionState
    requires s.flags.owned.Some?
  {
    if written
    then s.(archive := Archiving, flags := s.flags.(
              owned := Some(s.flags.owned.value.(state := PendingCleanup, activityLost := activityLost))))
    else s.(archive := NoArchive, flags := s.flags.(cleanupScheduled := false))
  }

  function Disposed(s: SessionState): SessionState {
    s.(disposed := true, flags := s.flags.(generation := s.flags.generation + 1))
  }

  function AfterArchive(s: SessionState, succeeded: bool): SessionState {
    var next := if succeeded then Disposed(s) else s;
    next.(archive := NoArchive, flags := next.flags.(cleanupScheduled := false))
  }

  /** Shutdown reaches the session; one that is being archived or is archived it only disposes of. */
  function AfterVisit(s: SessionState): SessionState {
    var quiet := s.(flags := s.flags.(observing := false));
    if Ephemeral(s.flags.owned) && !s.flags.owned.value.state.Archived? && !s.flags.owned.value.state.PendingCleanup?
    then quiet.(close := if s.flags.remoteBusy || s.flags.cancelPending then Marking else Refreshing)
    else Disposed(quiet.(close := Finished))
  }

  function AfterRefresh(s: SessionState, terminal: bool): SessionState
    requires s.flags.owned.Some?
  {
    if terminal then s.(close := Cleaning, flags := WithOwnedState(s.flags, PendingCleanup)) else s.(close := Marking)
  }

  function AfterMark(s: SessionState, written: bool): SessionState
    requires s.flags.owned.Some?
  {
    if written then Disposed(s.(close := Finished, flags := WithOwnedState(s.flags, PendingCleanup)))
    else s.(close := Aborted)
  }

  function AfterClean(s: SessionState, recorded: bool): SessionState {
    if recorded then Disposed(s.(close := Finished)) else s.(close := Aborted)
  }

  /** One event; one that nothing waits for changes nothing. */
  function Next(s: SessionState, event: Event): SessionState {
    match event
    case Prompt => if CanBegin(s) then Begun(s) else s
    case Settled(g, result) => if g in s.runs then AfterSettled(s, g, result) else s
    case GaveUp(g) => s.(flags := s.flags.(observing := s.flags.observing && g != s.flags.generation))
    case Updated(status) => if s.disposed then s else WithFlags(s, UpdatedFlags(s.flags, status))
    case AskCancel => if s.open && !s.disposed then AfterAskCancel(s) else s
    case Answered(cancelled) => if s.cancel.Some? then AfterAnswered(s, cancelled) else s
    case Expired => if s.cancel.Some? && !s.expired then AfterExpired(s) else s
    case Recorded(written, lost) =>
      if s.archive.Recording? && s.flags.owned.Some? then AfterRecorded(s, written, lost) else s
    case ArchiveEnded(succeeded) => if s.archive.Archiving? then AfterArchive(s, succeeded) else s
    case Shutdown => s.(open := false)
    case Visited => if !s.open && s.close.NotVisited? then AfterVisit(s) else s
    case Refreshed(terminal) => if s.close.Refreshing? && s.flags.owned.Some? then AfterRefresh(s, terminal) else s
    case Marked(written) => if s.close.Marking? && s.flags.owned.Some? then AfterMark(s, written) else s
    case Cleaned(recorded) => if s.close.Cleaning? then AfterClean(s, recorded) else s
    case RecoveryArchives => if s.recovery.Due? && Ephemeral(s.flags.owned) then s.(recovery := Recovering) else s
    case RecoveryPasses => if s.recovery.Due? then s.(recovery := PassedOver) else s
    case RecoveryEnds => if s.recovery.Recovering? then s.(recovery := PassedOver) else s
  }

  // --- what every step keeps ----------------------------------------------------------------------------

  /** No turn is newer than a cancellation under way, and what is awaited can still come. */
  ghost predicate TurnsSound(s: SessionState) {
    && (forall g :: g in s.runs ==> g <= s.flags.generation)
    && (s.cancel.Some? ==> s.supported && forall g :: g in s.runs ==> g <= s.cancel.value)
    && (s.cancel.Some? && s.disposed ==> s.cancel.value < s.flags.generation)
    && (!s.disposed ==>
          && (s.flags.cancelPending <==> s.cancel.Some?)
          && (s.cancel.Some? ==> s.cancel.value == s.flags.generation)
          && (s.flags.settlementPending ==> s.flags.generation in s.runs))
  }

  predicate Given(s: SessionState, state: OwnedState) {
    s.flags.owned.Some? && s.flags.owned.value.state == state
  }

  ghost predicate CleanupSound(s: SessionState) {
    && (s.flags.cleanupScheduled <==> !s.archive.NoArchive?)
    && (s.flags.cleanupScheduled ==> Ephemeral(s.flags.owned) && Given(s, PendingCleanup))
    && (s.open ==> s.close.NotVisited?)
    && (s.close.Refreshing? || s.close.Cleaning? ==> s.cancel.None?)
    && (s.close.Refreshing? || s.close.Marking? || s.close.Cleaning? ==>
          Ephemeral(s.flags.owned) && !Given(s, Archived))
    && (s.close.Cleaning? ==> Given(s, PendingCleanup))
    && (s.close.Finished? ==> s.disposed)
    && (s.recovery.Recovering? ==> Ephemeral(s.flags.owned))
    && (s.disposed && Ephemeral(s.flags.owned) ==> Given(s, PendingCleanup) || Given(s, Archived))
  }

  /** An ephemeral session is busy with its unsettled turn, or told to clean up after it. */
  predicate EphemeralSound(s: SessionState) {
    Ephemeral(s.flags.owned) && !s.disposed ==>
      && (s.cancel.Some? && s.expired ==> s.flags.terminalCleanupOnUpdate)
      && (s.flags.generation in s.runs && !Given(s, PendingCleanup) && !Given(s, Archived) ==>
            s.flags.settlementPending && (s.flags.terminalCleanupOnUpdate || s.flags.remoteBusy))
  }

  ghost predicate Sound(s: SessionState) {
    TurnsSound(s) && CleanupSound(s) && EphemeralSound(s)
  }

  lemma InitialSound(owned: Option<Owned>, running: bool, status: Option<Status>, observing: bool, recovered: bool,
        supported: bool, listed: bool)
    ensures Sound(Initial(owned, running, status, observing, recovered, supported, listed))
  {
  }

  lemma ArchivingSound(s: SessionState, recoverPending: bool)
    requires Sound(s) && Ephemeral(s.flags.owned)
    ensures Sound(WithFlags(s, ArchivingFlags(s.flags, recoverPending)))
  {
  }

  lemma BegunSound(s: SessionState)
    requires Sound(s) && CanBegin(s)
    ensures Sound(Begun(s))
  {
  }

  lemma HeardSound(s: SessionState, result: Option<Option<Status>>)
    requires Sound(s) && s.flags.generation in s.runs
    ensures Sound(s.(runs := s.runs - {s.flags.generation}, flags := HeardFlags(s.flags, result)))
  {
  }

  lemma SettledSound(s: SessionState, g: nat, result: Option<Option<Status>>)
    requires Sound(s) && g in s.runs
    ensures Sound(AfterSettled(s, g, result))
  {
    if g == s.flags.generation {
      HeardSound(s, result);
      var heard := s.(runs := s.runs - {g}, flags := HeardFlags(s.flags, result));
      if Ephemeral(s.flags.owned) {
        ArchivingSound(heard, false);
      }
      assert AfterSettled(s, g, result) == WithFlags(heard, SettledFlags(s.flags, result));
    }
  }

  lemma UpdatedSound(s: SessionState, status: Option<Status>)
    requires Sound(s) && !s.disposed
    ensures Sound(WithFlags(s, UpdatedFlags(s.flags, status)))
  {
  }

  lemma AskCancelSound(s: SessionState)
    requires Sound(s) && s.open && !s.disposed
    ensures Sound(AfterAskCancel(s))
  {
  }

  lemma AnsweredSound(s: SessionState, cancelled: bool)
    requires Sound(s) && s.cancel.Some?
    ensures Sound(AfterAnswered(s, cancelled))
  {
  }

  lemma ExpiredSound(s: SessionState)
    requires Sound(s) && s.cancel.Some? && !s.expired
    ensures Sound(AfterExpired(s))
  {
  }

  lemma RecordedSound(s: SessionState, written: bool, activityLost: bool)
    requires Sound(s) && s.archive.Recording? && s.flags.owned.Some?
    ensures Sound(AfterRecorded(s, written, activityLost))
  {
  }

  lemma ArchiveEndedSound(s: SessionState, succeeded: bool)
    requires Sound(s) && s.archive.Archiving?
    ensures Sound(AfterArchive(s, succeeded))
  {
  }

  lemma VisitedSound(s: SessionState)
    requires Sound(s) && !s.open && s.close.NotVisited?
    ensures Sound(AfterVisit(s))
  {
  }

  lemma RefreshedSound(s: SessionState, terminal: bool)
    requires Sound(s) && s.close.Refreshing? && s.flags.owned.Some?
    ensures Sound(AfterRefresh(s, terminal))
  {
  }

  lemma ShutdownSound(s: SessionState, event: Event)
    requires Sound(s) && (event.Shutdown? || event.Marked? || event.Cleaned?)
    ensures Sound(Next(s, event))
  {
  }

  lemma StaysSound(s: SessionState, event: Event)
    requires Sound(s)
    ensures Sound(Next(s, event))
  {
    match event
    case Prompt => if CanBegin(s) { BegunSound(s); }
    case Settled(g, result) => if g in s.runs { SettledSound(s, g, result); }
    case Updated(status) => if !s.disposed { UpdatedSound(s, status); }
    case AskCancel => if s.open && !s.disposed { AskCancelSound(s); }
    case Answered(cancelled) => if s.cancel.Some? { AnsweredSound(s, cancelled); }
    case Expired => if s.cancel.Some? && !s.expired { ExpiredSound(s); }
    case Recorded(written, lost) => if s.archive.Recording? && s.flags.owned.Some? { RecordedSound(s, written, lost); }
    case ArchiveEnded(succeeded) => if s.archive.Archiving? { ArchiveEndedSound(s, succeeded); }
    case Shutdown => ShutdownSound(s, event);
    case Visited => if !s.open && s.close.NotVisited? { VisitedSound(s); }
    case Refreshed(terminal) => if s.close.Refreshing? && s.flags.owned.Some? { RefreshedSound(s, terminal); }
    case Marked(_) => ShutdownSound(s, event);
    case Cleaned(_) => ShutdownSound(s, event);
    case _ =>
  }

  // --- what holds of one step, and so over a life ---------------------------------------------------------

  /** Generations only grow, and cleanup of a managed session that has begun is never taken back. */
  predicate NoneTakenBack(s: SessionState, next: SessionState) {
    s.flags.generation <= next.flags.generation && (Closing(s.flags) ==> Closing(next.flags))
  }

  lemma SettledTakesNothingBack(s: SessionState, g: nat, result: Option<Option<Status>>)
    ensures NoneTakenBack(s, AfterSettled(s, g, result))
  {
  }

  lemma UpdatedTakesNothingBack(s: SessionState, status: Option<Status>)
    ensures NoneTakenBack(s, WithFlags(s, UpdatedFlags(s.flags, status)))
  {
  }

  lemma AnsweredTakesNothingBack(s: SessionState, cancelled: bool)
    ensures NoneTakenBack(s, AfterAnswered(s, cancelled))
  {
  }

  lemma ArchiveTakesNothingBack(s: SessionState)
    requires CleanupSound(s) && !s.archive.NoArchive?
    ensures forall written, lost :: NoneTakenBack(s, AfterRecorded(s, written, lost))
    ensures forall succeeded :: NoneTakenBack(s, AfterArchive(s, succeeded))
  {
  }

  lemma ShutdownTakesNothingBack(s: SessionState, event: Event)
    requires event.Shutdown? || event.Visited? || event.Refreshed? || event.Marked? || event.Cleaned?
    ensures NoneTakenBack(s, Next(s, event))
  {
  }

  lemma StepTakesNothingBack(s: SessionState, event: Event)
    requires Sound(s)
    ensures NoneTakenBack(s, Next(s, event))
  {
    match event
    case Settled(g, result) => SettledTakesNothingBack(s, g, result);
    case Updated(status) => UpdatedTakesNothingBack(s, status);
    case Answered(cancelled) => AnsweredTakesNothingBack(s, cancelled);
    case Recorded(_, _) => if !s.archive.NoArchive? { ArchiveTakesNothingBack(s); }
    case ArchiveEnded(_) => if !s.archive.NoArchive? { ArchiveTakesNothingBack(s); }
    case Shutdown => ShutdownTakesNothingBack(s, event);
    case Visited => ShutdownTakesNothingBack(s, event);
    case Refreshed(_) => ShutdownTakesNothingBack(s, event);
    case Marked(_) => ShutdownTakesNothingBack(s, event);
    case Cleaned(_) => ShutdownTakesNothingBack(s, event);
    case _ =>
  }

  /** A session that is closing takes no turn. */
  lemma ClosingTakesNoTurn(s: SessionState)
    requires Closing(s.flags)
    ensures Next(s, Prompt) == s
  {
  }

  /** The states of a life, one more than its events. */
  ghost predicate Life(states: seq<SessionState>, events: seq<Event>) {
    && |states| == |events| + 1
    && (forall i {:trigger events[i]} :: 0 <= i < |events| ==> states[i + 1] == Next(states[i], events[i]))
  }

  lemma {:induction false} LifeIsSound(states: seq<SessionState>, events: seq<Event>, i: nat)
    requires Life(states, events) && Sound(states[0]) && i < |states|
    ensures Sound(states[i])
  {
    if i > 0 {
      LifeIsSound(states, events, i - 1);
      StaysSound(states[i - 1], events[i - 1]);
    }
  }

  lemma {:induction false} ClosingStays(states: seq<SessionState>, events: seq<Event>, i: nat, j: nat)
    requires Life(states, events) && Sound(states[0]) && i <= j < |states|
    requires Closing(states[i].flags)
    ensures Closing(states[j].flags)
    ensures j < |events| && events[j].Prompt? ==> states[j + 1] == states[j]
    decreases j
  {
    if i < j {
      ClosingStays(states, events, i, j - 1);
      LifeIsSound(states, events, j - 1);
      StepTakesNothingBack(states[j - 1], events[j - 1]);
    }
    if j < |events| && events[j].Prompt? {
      ClosingTakesNoTurn(states[j]);
    }
  }
}
