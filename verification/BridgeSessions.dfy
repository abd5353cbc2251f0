/**
 * The bridge's session limit. Every start and resume holds a reservation from its first step
 * until it either opens a session or is known to leave no agent behind. Each method is one stretch
 * of code between awaits; its parameters say how the await before it ended.
 */
module BridgeSessions {
  import opened Prelude

  type Task = nat
  type AgentId = nat

  datatype BridgeState = Open | Closing | Closed

  /** What a start, or the reconciliation of its late create, waits for. `Stuck` waits for nothing. */
  datatype Phase =
    | Placing
    | Enrolling
    | Locating
    | Creating(managed: bool)
    | Refusing
    | Activating(agent: AgentId)
    | AwaitingLate(managed: bool)
    | CleanRecording(agent: AgentId)
    | CleanRefreshing(agent: AgentId)
    | Archiving(agent: AgentId)
    | Stuck(left: Option<AgentId>)

  /** How archiving an agent nobody waits for any more went. */
  datatype Cleanup = NotConfirmed | Confirmed | ConfirmedNotReleased

  /** Before its create record exists. */
  predicate Preparing(phase: Phase) {
    phase.Placing? || phase.Enrolling? || phase.Locating?
  }

  ghost function PreparingStarts(phases: map<Task, Phase>): set<Task> {
    set t | t in phases && Preparing(phases[t])
  }

  /** The starts that have a create record. */
  ghost function RecordedStarts(phases: map<Task, Phase>): set<Task> {
    set t | t in phases && !Preparing(phases[t])
  }

  /** The agent a step knows of and answers for. */
  function HolderOf(phase: Phase): Option<AgentId> {
    match phase
    case Activating(agent) => Some(agent)
    case CleanRecording(agent) => Some(agent)
    case CleanRefreshing(agent) => Some(agent)
    case Archiving(agent) => Some(agent)
    case Stuck(left) => left
    case _ => None
  }

  /** An agent the bridge made is a session, archived, or still holds a reservation. */
  predicate Kept(agent: AgentId, owner: Task, known: set<AgentId>, phases: map<Task, Phase>) {
    agent in known || (owner in phases && HolderOf(phases[owner]) == Some(agent))
  }

  class Bridge {
    const maxSessions: nat
    var state: BridgeState
    var sessions: set<AgentId>
    var reservations: nat
    /** Starts under way; each holds one reservation. */
    var phases: map<Task, Phase>
    /** The create records that hold theirs, named by their start. */
    var pendingCreates: set<Task>
    /** Resumes somebody may join, and those of them still at work, which hold one reservation each. */
    var resumePending: set<AgentId>
    var resuming: set<AgentId>
    /** The start that made an agent, and the agents known to be archived. */
    var owners: map<AgentId, Task>
    var archived: set<AgentId>
    /** The sessions that shutdown gave up. */
    var givenUp: set<AgentId>

    ghost predicate Valid()
      reads this
    {
      Accounted() && NoOrphan()
    }

    ghost predicate Accounted()
      reads this
    {
      && reservations == |phases| + |resuming|
      && |sessions| + |givenUp| + reservations <= maxSessions
      && resuming <= resumePending
      && pendingCreates == RecordedStarts(phases)
      && (state.Open? ==> givenUp == {})
      && (state.Closed? ==> sessions == {})
    }

    ghost predicate NoOrphan()
      reads this
    {
      forall agent :: agent in owners ==> Kept(agent, owners[agent], Known(), phases)
    }

    function Known(): set<AgentId>
      reads this
    {
      sessions + archived + givenUp
    }

    constructor (maxSessions: nat)
      ensures Valid() && this.maxSessions == maxSessions && state.Open?
      ensures sessions == {} && reservations == 0 && phases == map[] && resumePending == {} && pendingCreates == {}
    {
      this.maxSessions := maxSessions;
      state, sessions, reservations, phases := Open, {}, 0, map[];
      resumePending, resuming, owners, archived := {}, {}, map[], {};
      pendingCreates, givenUp := {}, {};
    }

    predicate Full()
      reads this
    {
      |sessions| + reservations >= maxSessions
    }

    // --- starting a session -----------------------------------------------------------------------

    /** A managed start prepares its workspace and ledger entry first; any other creates at once. */
    method Start(task: Task, wantsLedger: bool, hasLedger: bool, createThrows: bool) returns (accepted: bool)
      requires Valid() && task !in phases
      modifies this`reservations, this`phases, this`pendingCreates
      ensures Valid()
      ensures accepted <==> old(state.Open? && !Full()) && (wantsLedger ==> hasLedger)
      ensures !accepted ==> reservations == old(reservations) && phases == old(phases)
      ensures accepted && wantsLedger ==> phases == old(phases)[task := Placing]
      ensures accepted && !wantsLedger && !createThrows ==> phases == old(phases)[task := Creating(false)]
      ensures accepted && !wantsLedger && createThrows ==> phases == old(phases) && reservations == old(reservations)
    {
      if !state.Open? || Full() {
        return false;
      }
      reservations := reservations + 1;
      if wantsLedger && !hasLedger {
        reservations := reservations - 1;
        return false;
      }
      Begin(task, if wantsLedger then Placing else Creating(false));
      if !wantsLedger && createThrows {
        ReleaseCreate(task);
      }
      return true;
    }

    /** A reserved start reaches its first await, or the create itself with its record made. */
    method Begin(task: Task, phase: Phase)
      requires NoOrphan() && task !in phases && HolderOf(phase).None? && pendingCreates == RecordedStarts(phases)
      modifies this`phases, this`pendingCreates
      ensures NoOrphan() && phases == old(phases)[task := phase] && |phases| == |old(phases)| + 1
      ensures pendingCreates == RecordedStarts(phases)
    {
      if !Preparing(phase) {
        pendingCreates := pendingCreates + {task};
      }
      phases := phases[task := phase];
    }

    /** The reservation goes back, and the create record with it. */
    method ReleaseCreate(task: Task)
      requires Accounted() && task in pendingCreates
      requires forall agent :: agent in owners ==> Kept(agent, owners[agent], Known(), phases - {task})
      modifies this`reservations, this`phases, this`pendingCreates
      ensures Valid() && phases == old(phases) - {task} && reservations == old(reservations) - 1
      ensures pendingCreates == old(pendingCreates) - {task}
    {
      OneFewer(phases, task);
      Forget(task);
    }

    /** The next await of a start that has its record already, or has none yet. */
    method Move(task: Task, phase: Phase)
      requires Valid() && task in phases && (HolderOf(phases[task]).Some? ==> HolderOf(phase) == HolderOf(phases[task]))
      requires Preparing(phase) == Preparing(phases[task])
      modifies this`phases
      ensures Valid() && phases == old(phases)[task := phase]
    {
      assert phases[task := phase].Keys == phases.Keys;
      phases := phases[task := phase];
    }

    /** The start's create record is made, just before the create itself. */
    method Record(task: Task, phase: Phase)
      requires Valid() && task in phases && Preparing(phases[task]) && !Preparing(phase)
      modifies this`phases, this`pendingCreates
      ensures Valid() && phases == old(phases)[task := phase] && pendingCreates == old(pendingCreates) + {task}
    {
      assert phases[task := phase].Keys == phases.Keys;
      pendingCreates := pendingCreates + {task};
      phases := phases[task := phase];
    }

    /** A preparing await ended: the next one starts, or the reservation goes back. */
    method Prepared(task: Task, ok: bool, createThrows: bool)
      requires Valid() && task in phases && Preparing(phases[task])
      modifies this`reservations, this`phases, this`pendingCreates
      ensures Valid()
      ensures pendingCreates == old(pendingCreates) + if ok && old(phases[task]).Locating? then {task} else {}
      ensures !ok ==> phases == old(phases) - {task}
      ensures ok ==> phases == old(phases)[task := match old(phases[task])
        case Placing => Enrolling
        case Enrolling => Locating
        case _ => if createThrows then Refusing else Creating(true)]
    {
      if !ok {
        OneFewer(phases, task);
        reservations := reservations - 1;
        phases := phases - {task};
      } else if phases[task].Placing? {
        Move(task, Enrolling);
      } else if phases[task].Enrolling? {
        Move(task, Locating);
      } else {
        Record(task, if createThrows then Refusing else Creating(true));
      }
    }
  
    /** The create answered in time: refused, or with an agent. */
    method CreateSettled(task: Task, made: Option<AgentId>)
      requires Valid() && task in phases && phases[task].Creating?
      modifies this`reservations, this`phases, this`pendingCreates, this`owners, this`sessions
      ensures Valid()
      ensures made.None? ==> sessions == old(sessions)
      ensures made.None? ==>
        phases == if old(phases[task].managed) then old(phases)[task := Refusing] else old(phases) - {task}
      ensures made.Some? && old(phases[task].managed) ==>
        phases == old(phases)[task := Activating(made.value)] && sessions == old(sessions)
      ensures made.Some? && !old(phases[task].managed) && state.Open? ==>
        phases == old(phases) - {task} && sessions == old(sessions) + {made.value}
      ensures made.Some? && !old(phases[task].managed) && !state.Open? ==>
        phases == old(phases)[task := Archiving(made.value)] && sessions == old(sessions)
    {
      var managed := phases[task].managed;
      if made.None? {
        if managed {
          Move(task, Refusing);
        } else {
          ReleaseCreate(task);
        }
        return;
      }
      Made(task, made.value, Activating(made.value));
      if !managed {
        Settle(task, Archiving(made.value));
      }
    }

    /** From here on the agent is somebody's. */
    method Made(task: Task, agent: AgentId, phase: Phase)
      requires Valid() && task in phases && HolderOf(phase) == Some(agent)
      requires phases[task].Creating? || phases[task].AwaitingLate?
      modifies this`owners, this`phases
      ensures Valid() && owners == old(owners)[agent := task] && phases == old(phases)[task := phase]
    {
      owners := owners[agent := task];
      assert phases[task := phase].Keys == phases.Keys;
      phases := phases[task := phase];
    }

    /** An open bridge turns the reservation into a session; a closing one cleans the agent up. */
    method Settle(task: Task, otherwise: Phase)
      requires Valid() && task in phases && phases[task].Activating? && HolderOf(otherwise) == Some(phases[task].agent)
      modifies this`reservations, this`phases, this`pendingCreates, this`sessions
      ensures Valid()
      ensures state.Open? ==> phases == old(phases) - {task} && sessions == old(sessions) + {old(phases[task].agent)}
      ensures !state.Open? ==> phases == old(phases)[task := otherwise] && sessions == old(sessions)
    {
      if state.Open? {
        OpenSession(task, phases[task].agent);
      } else {
        Move(task, otherwise);
      }
    }

    /** The new session takes the place of its reservation. */
    method OpenSession(task: Task, agent: AgentId)
      requires Valid() && state.Open? && task in phases && HolderOf(phases[task]) == Some(agent)
      modifies this`reservations, this`phases, this`pendingCreates, this`sessions
      ensures Valid() && phases == old(phases) - {task} && sessions == old(sessions) + {agent}
    {
      assert |sessions + {agent}| <= |sessions| + 1;
      sessions := sessions + {agent};
      Forget(task);
    }

    /** The create record is gone, and its reservation free. */
    method Forget(task: Task)
      requires task in pendingCreates && pendingCreates == RecordedStarts(phases) && reservations > 0
      modifies this`reservations, this`phases, this`pendingCreates
      ensures phases == old(phases) - {task} && |phases| == |old(phases)| - 1 && reservations == old(reservations) - 1
      ensures pendingCreates == old(pendingCreates) - {task} && pendingCreates == RecordedStarts(phases)
    {
      OneFewer(phases, task);
      reservations := reservations - 1;
      pendingCreates := pendingCreates - {task};
      phases := phases - {task};
    }

    /** The start's deadline passed; the create itself still runs and keeps the reservation. */
    method CreateTimedOut(task: Task)
      requires Valid() && task in phases && phases[task].Creating?
      modifies this`phases
      ensures Valid() && phases == old(phases)[task := AwaitingLate(old(phases[task].managed))]
    {
      Move(task, AwaitingLate(phases[task].managed));
    }

    /** The ledger was told of a refused create; if that failed the record stays. */
    method RefusalRecorded(task: Task, written: bool)
      requires Valid() && task in phases && phases[task].Refusing?
      modifies this`reservations, this`phases, this`pendingCreates
      ensures Valid() && phases == if written then old(phases) - {task} else old(phases)[task := Stuck(None)]
    {
      if written {
        ReleaseCreate(task);
      } else {
        Move(task, Stuck(None));
      }
    }

    /** The ledger was told of the new agent; if that failed its cleanup is left to recovery. */
    method Activated(task: Task, written: bool)
      requires Valid() && task in phases && phases[task].Activating?
      modifies this`reservations, this`phases, this`pendingCreates, this`sessions
      ensures Valid()
      ensures !written ==>
        phases == old(phases)[task := Stuck(Some(old(phases[task].agent)))] && sessions == old(sessions)
      ensures written && state.Open? ==>
        phases == old(phases) - {task} && sessions == old(sessions) + {old(phases[task].agent)}
      ensures written && !state.Open? ==>
        phases == old(phases)[task := CleanRecording(old(phases[task].agent))] && sessions == old(sessions)
    {
      if !written {
        Move(task, Stuck(Some(phases[task].agent)));
      } else {
        Settle(task, CleanRecording(phases[task].agent));
      }
    }

    // --- late creates -----------------------------------------------------------------------------

    /** The create answered after its deadline. */
    method LateSettled(task: Task, made: Option<AgentId>)
      requires Valid() && task in phases && phases[task].AwaitingLate?
      modifies this`reservations, this`phases, this`pendingCreates, this`owners
      ensures Valid()
      ensures made.None? ==>
        phases == if old(phases[task].managed) then old(phases)[task := Refusing] else old(phases) - {task}
      ensures made.Some? ==> phases == old(phases)[task :=
        if old(phases[task].managed) then CleanRecording(made.value) else Archiving(made.value)]
    {
      var managed := phases[task].managed;
      if made.None? {
        if managed {
          Move(task, Refusing);
        } else {
          ReleaseCreate(task);
        }
        return;
      }
      Made(task, made.value, if managed then CleanRecording(made.value) else Archiving(made.value));
    }

    method CleanupRecorded(task: Task, written: bool)
      requires Valid() && task in phases && phases[task].CleanRecording?
      modifies this`phases
      ensures Valid()
      ensures phases == old(phases)[task :=
        if written then CleanRefreshing(old(phases[task].agent)) else Stuck(Some(old(phases[task].agent)))]
    {
      Move(task, if written then CleanRefreshing(phases[task].agent) else Stuck(Some(phases[task].agent)));
    }

    /** Only an agent confirmed to have stopped is archived; any other keeps its reservation. */
    method CleanupRefreshed(task: Task, terminal: bool)
      requires Valid() && task in phases && phases[task].CleanRefreshing?
      modifies this`phases
      ensures Valid()
      ensures phases == old(phases)[task :=
        if terminal then Archiving(old(phases[task].agent)) else Stuck(Some(old(phases[task].agent)))]
    {
      Move(task, if terminal then Archiving(phases[task].agent) else Stuck(Some(phases[task].agent)));
    }

    /** The reservation of a late agent goes back only once the agent is known to be archived. */
    method LateArchived(task: Task, cleanup: Cleanup)
      requires Valid() && task in phases && phases[task].Archiving?
      modifies this`reservations, this`phases, this`pendingCreates, this`archived
      ensures Valid()
      ensures phases == if cleanup.Confirmed? then old(phases) - {task}
        else old(phases)[task := Stuck(Some(old(phases[task].agent)))]
      ensures archived == if cleanup.NotConfirmed? then old(archived) else old(archived) + {old(phases[task].agent)}
    {
      if !cleanup.NotConfirmed? {
        archived := archived + {phases[task].agent};
      }
      if cleanup.Confirmed? {
        ReleaseCreate(task);
      } else {
        Move(task, Stuck(Some(phases[task].agent)));
      }
    }
  
    // --- resuming, recovering, archiving, closing -------------------------------------------------

    /** A resume joins an open session or a pending resume, or reserves for its own. */
    method Resume(id: AgentId) returns (accepted: bool)
      requires Valid()
      modifies this`reservations, this`resumePending, this`resuming
      ensures Valid()
      ensures accepted <==> old(state.Open? && (id in sessions || id in resumePending || !Full()))
      ensures old(state.Open? && id !in sessions && id !in resumePending && !Full())
        <==> reservations == old(reservations) + 1
      ensures reservations == old(reservations) ==> resuming == old(resuming) && resumePending == old(resumePending)
      ensures reservations != old(reservations) ==> resuming == old(resuming) + {id}
    {
      if !state.Open? {
        return false;
      }
      if id in sessions || id in resumePending {
        return true;
      }
      if Full() {
        return false;
      }
      reservations := reservations + 1;
      resumePending := resumePending + {id};
      resuming := resuming + {id};
      return true;
    }

    /** The last stretch of a resume: whatever came of it, its reservation goes back. */
    method ResumeFinished(id: AgentId, resumable: bool)
      requires Valid() && id in resuming
      modifies this`reservations, this`resuming, this`sessions
      ensures Valid() && resuming == old(resuming) - {id} && reservations == old(reservations) - 1
      ensures sessions == if resumable && state.Open? then old(sessions) + {id} else old(sessions)
    {
      assert |resuming - {id}| == |resuming| - 1;
      if resumable && state.Open? && id !in sessions {
        sessions := sessions + {id};
      }
      resuming := resuming - {id};
      reservations := reservations - 1;
    }

    /** A moment later the resume is forgotten. */
    method ResumeForgotten(id: AgentId)
      requires Valid() && id in resumePending && id !in resuming
      modifies this`resumePending
      ensures Valid() && resumePending == old(resumePending) - {id}
    {
      resumePending := resumePending - {id};
    }

    /** Recovery takes over a running agent of an earlier bridge only while there is room. */
    method RecoverAttach(id: AgentId)
      requires Valid()
      modifies this`sessions
      ensures Valid()
      ensures sessions == if state.Open? && old(!Full()) then old(sessions) + {id} else old(sessions)
    {
      if state.Open? && |sessions| + reservations < maxSessions && id !in sessions {
        sessions := sessions + {id};
      }
    }

    /** An archived session makes room, unless shutdown has given it up meanwhile. */
    method SessionArchived(id: AgentId)
      requires Valid() && (id in sessions || id in givenUp)
      modifies this`sessions, this`archived
      ensures Valid() && sessions == old(sessions) - {id} && archived == old(archived) + {id}
    {
      archived := archived + {id};
      sessions := sessions - {id};
    }

    method BeginClose()
      requires Valid()
      modifies this`state
      ensures Valid() && state == if old(state).Open? then Closing else old(state)
    {
      if state.Open? {
        state := Closing;
      }
    }

    /** Shutdown has dealt with every session, and forgets them. */
    method ClearSessions()
      requires Valid() && state.Closing?
      modifies this`sessions, this`givenUp
      ensures Valid() && sessions == {} && givenUp == old(givenUp) + old(sessions)
    {
      givenUp := givenUp + sessions;
      sessions := {};
    }

    method FinishClose()
      requires Valid() && state.Closing? && sessions == {}
      modifies this`state
      ensures Valid() && state.Closed?
    {
      state := Closed;
    }

    /** The agents this bridge made and did not archive, as far as it knows of them. */
    function Live(): set<AgentId>
      reads this
    {
      set agent | agent in owners && agent !in archived
    }
  }

  lemma OneFewer(phases: map<Task, Phase>, task: Task)
    requires task in phases
    ensures |phases - {task}| == |phases| - 1
  {
    assert phases == (phases - {task})[task := phases[task]];
  }

  /** Starts under way are preparing or have a create record, and so reservations are accounted for. */
  lemma StartsArePreparingOrPending(bridge: Bridge)
    requires bridge.Valid()
    ensures bridge.pendingCreates !! PreparingStarts(bridge.phases)
    ensures bridge.reservations == |bridge.pendingCreates| + |PreparingStarts(bridge.phases)| + |bridge.resuming|
  {
    assert bridge.phases.Keys == PreparingStarts(bridge.phases) + bridge.pendingCreates;
    assert |bridge.phases.Keys| == |bridge.phases|;
  }

  /** The agents the starts under way answer for are no more than the starts. */
  lemma {:induction false} HeldAgents(phases: map<Task, Phase>) returns (held: set<AgentId>)
    ensures |held| <= |phases|
    ensures forall t :: t in phases && HolderOf(phases[t]).Some? ==> HolderOf(phases[t]).value in held
    decreases |phases|
  {
    if phases == map[] {
      held := {};
    } else {
      var t :| t in phases;
      var rest := HeldAgents(phases - {t});
      held := if HolderOf(phases[t]).Some? then rest + {HolderOf(phases[t]).value} else rest;
      assert phases == (phases - {t})[t := phases[t]];
    }
  }

  /** The limit bounds the remote agents too: late, abandoned and half-created ones included. */
  lemma LiveAgentsBounded(bridge: Bridge)
    requires bridge.Valid()
    ensures |bridge.Live()| <= |bridge.sessions| + |bridge.givenUp| + |bridge.phases| <= bridge.maxSessions
  {
    var held := HeldAgents(bridge.phases);
    var covered := bridge.sessions + bridge.givenUp + held;
    assert bridge.Live() <= covered by {
      forall agent | agent in bridge.Live() ensures agent in covered {
        assert Kept(agent, bridge.owners[agent], bridge.Known(), bridge.phases);
      }
    }
    SubsetSize(bridge.Live(), covered);
    assert |covered| <= |bridge.sessions| + |bridge.givenUp| + |held|;
  }

  // --- whole runs ---------------------------------------------------------------------------------------

  datatype Event =
    | AskStart(task: Task, wantsLedger: bool, hasLedger: bool, createThrows: bool)
    | PreparationEnded(task: Task, ok: bool, createThrows: bool)
    | CreateAnswered(task: Task, made: Option<AgentId>)
    | StartTimedOut(task: Task)
    | LedgerAnswered(task: Task, written: bool)
    | Refreshed(task: Task, terminal: bool)
    | CleanedUp(task: Task, cleanup: Cleanup)
    | AskResume(id: AgentId)
    | ResumeEnded(id: AgentId, resumable: bool)
    | ResumeDropped(id: AgentId)
    | Recovered(id: AgentId)
    | ArchivedSession(id: AgentId)
    | AskClose
    | SessionsCleared
    | CloseEnded

  /** One event; one that nothing waits for is ignored. */
  method Step(bridge: Bridge, event: Event)
    requires bridge.Valid()
    modifies bridge
    ensures bridge.Valid()
  {
    match event
    case AskStart(task, wantsLedger, hasLedger, throws) =>
      if task !in bridge.phases {
        var accepted := bridge.Start(task, wantsLedger, hasLedger, throws);
      }
    case PreparationEnded(task, ok, throws) =>
      if task in bridge.phases && Preparing(bridge.phases[task]) { bridge.Prepared(task, ok, throws); }
    case CreateAnswered(task, made) =>
      if task in bridge.phases && bridge.phases[task].Creating? {
        bridge.CreateSettled(task, made);
      } else if task in bridge.phases && bridge.phases[task].AwaitingLate? {
        bridge.LateSettled(task, made);
      }
    case StartTimedOut(task) =>
      if task in bridge.phases && bridge.phases[task].Creating? { bridge.CreateTimedOut(task); }
    case LedgerAnswered(task, written) =>
      if task in bridge.phases && bridge.phases[task].Refusing? {
        bridge.RefusalRecorded(task, written);
      } else if task in bridge.phases && bridge.phases[task].Activating? {
        bridge.Activated(task, written);
      } else if task in bridge.phases && bridge.phases[task].CleanRecording? {
        bridge.CleanupRecorded(task, written);
      }
    case Refreshed(task, terminal) =>
      if task in bridge.phases && bridge.phases[task].CleanRefreshing? { bridge.CleanupRefreshed(task, terminal); }
    case CleanedUp(task, cleanup) =>
      if task in bridge.phases && bridge.phases[task].Archiving? { bridge.LateArchived(task, cleanup); }
    case AskResume(id) => var accepted := bridge.Resume(id);
    case ResumeEnded(id, resumable) => if id in bridge.resuming { bridge.ResumeFinished(id, resumable); }
    case ResumeDropped(id) =>
      if id in bridge.resumePending && id !in bridge.resuming { bridge.ResumeForgotten(id); }
    case Recovered(id) => bridge.RecoverAttach(id);
    case ArchivedSession(id) =>
      if id in bridge.sessions || id in bridge.givenUp { bridge.SessionArchived(id); }
    case AskClose => bridge.BeginClose();
    case SessionsCleared => if bridge.state.Closing? { bridge.ClearSessions(); }
    case CloseEnded => if bridge.state.Closing? && bridge.sessions == {} { bridge.FinishClose(); }
  }

  /** What can be read off the bridge at one await point. */
  datatype Moment = Moment(
    sessions: nat,
    reservations: nat,
    phases: map<Task, Phase>,
    pendingCreates: set<Task>,
    resuming: nat,
    live: nat)

  /**
   * At every await point of any run, reservations are the pending creates, the preparing starts
   * and the resumes at work, and together with the open sessions they keep the limit. So do the
   * agents the bridge made and did not archive, those it gave up at shutdown included.
   */
  method Run(maxSessions: nat, events: seq<Event>) returns (moments: seq<Moment>)
    ensures |moments| == |events| + 1
    ensures forall i :: 0 <= i < |moments| ==> WithinLimit(moments[i], maxSessions)
  {
    var bridge := new Bridge(maxSessions);
    moments := [];
    for n := 0 to |events|
      invariant fresh(bridge) && bridge.Valid() && bridge.maxSessions == maxSessions && |moments| == n
      invariant forall i :: 0 <= i < n ==> WithinLimit(moments[i], maxSessions)
    {
      var moment := Look(bridge);
      moments := moments + [moment];
      Step(bridge, events[n]);
    }
    var moment := Look(bridge);
    moments := moments + [moment];
  }

  method Look(bridge: Bridge) returns (moment: Moment)
    requires bridge.Valid()
    ensures WithinLimit(moment, bridge.maxSessions)
    ensures moment == Moment(|bridge.sessions|, bridge.reservations, bridge.phases, bridge.pendingCreates,
                             |bridge.resuming|, |bridge.Live()|)
  {
    moment := Moment(|bridge.sessions|, bridge.reservations, bridge.phases, bridge.pendingCreates,
                     |bridge.resuming|, |bridge.Live()|);
    StartsArePreparingOrPending(bridge);
    LiveAgentsBounded(bridge);
  }

  ghost predicate WithinLimit(moment: Moment, maxSessions: nat) {
    && moment.live <= maxSessions
    && moment.sessions + moment.reservations <= maxSessions
    && moment.reservations == |moment.pendingCreates| + |PreparingStarts(moment.phases)| + moment.resuming
    && moment.pendingCreates == RecordedStarts(moment.phases)
  }
}
