/**
 * The command controller: one operation at a time is prepared, reviewed, executed, saved and
 * published. Worker results, save acknowledgements and user edits arrive in any order.
 */
module CommandController {
  import opened Prelude
  import opened PrefixEncoding
  import opened Presentation
  import opened CommandApp

  datatype RestoreRequest = RestoreRequest(key: Key, reference: string)

  datatype Active =
    | Idle
    | Preparing(capture: Capture, cancelled: bool)
    | Ready(capture: Capture, token: string)
    | Executing(capture: Capture, cancelled: bool)
    | Restoring(request: RestoreRequest)

  /** A result on its way to the durable store; `sequence` once the save is in flight. */
  datatype Persistence = Persistence(
    capture: Capture, reference: string, rows: CommandResults, reserved: Option<nat>, sequence: Option<nat>)

  /** The active worker's channel: nothing yet, a dead worker, its error, or its result. */
  datatype Answer =
    | NotYet
    | Gone
    | Failed
    | PreparedInput(token: string)
    | Executed(rows: CommandResults, reference: Option<string>)
    | Restored(rows: CommandResults)

  datatype MemoryEvent = Saved(sequence: nat) | SaveFailed(sequence: nat) | Fatal | Other

  function KeyOf(capture: Capture): Key {
    Key(capture.view, capture.stage)
  }

  const MAX_RESTORES := 128

  class CommandController {
    const uuid: seq<Byte> -> string
    const presentation: CommandPresentation
    var active: Active
    var persistence: Option<Persistence>
    var observed: map<Key, Option<string>>
    var restoreQueue: seq<RestoreRequest>
    var app: App
    var memorySequence: nat
    var memoryInflight: map<nat, View>
    ghost var log: seq<Entry>

    ghost predicate Valid()
      reads this, presentation
    {
      && presentation.Valid()
      && LogSound(uuid, log)
      && |restoreQueue| <= MAX_RESTORES
      && (persistence.Some? ==> active.Idle?)
      && ActiveSound(active, log)
      && (persistence.Some? ==> PersistenceSound(persistence.value, log))
      && (persistence.Some? ==>
            CanPublish(presentation.publications, KeyOf(persistence.value.capture), persistence.value.rows))
    }

    constructor (uuid: seq<Byte> -> string, app: App)
      ensures Valid() && fresh(presentation) && this.app == app && this.uuid == uuid
      ensures active.Idle? && persistence.None? && log == [] && memorySequence == 0
      ensures Following() == Follow(map[], [], map[]) && presentation.configured == map[]
    {
      this.uuid := uuid;
      presentation := new CommandPresentation();
      active, persistence, observed, restoreQueue := Idle, None, map[], [];
      this.app := app;
      memorySequence, memoryInflight, log := 0, map[], [];
    }

    predicate Busy()
      reads this
    {
      !active.Idle? || persistence.Some?
    }

    /** The user edits chains and dialogs, and other saves come and go. */
    method Environment(app: App, sequence: nat, inflight: map<nat, View>)
      requires Valid() && memorySequence <= sequence
      modifies this`app, this`memorySequence, this`memoryInflight
      ensures Valid() && this.app == app && memorySequence == sequence && memoryInflight == inflight
    {
      this.app, memorySequence, memoryInflight := app, sequence, inflight;
    }

    // --- requests from the dialog -------------------------------------------------------------------

    /** A queued save is withdrawn and its run over; else the operation under way is told. */
    twostate predicate Cancels(generation: nat, view: View)
      reads this
    {
      if old(QueuedPublication(persistence, generation, view)) then
        && persistence.None? && active == old(active)
        && app == Finished(old(app), old(persistence).value.capture, false)
      else
        && persistence == old(persistence) && app == old(app)
        && active == Cancelled(old(active), generation, view)
    }

    /** A queued save can still be withdrawn; one in flight cannot. */
    method Cancel(generation: nat, view: View)
      requires Valid()
      modifies this`active, this`persistence, this`app
      ensures Valid() && Cancels(generation, view) && app.views == old(app.views)
    {
      if QueuedPublication(persistence, generation, view) {
        FailPersistence();
        return;
      }
      match active
      case Preparing(capture, cancelled) =>
        if capture.generation == generation && capture.view == view {
          active := Active.Preparing(capture, true);
        }
      case Executing(capture, cancelled) =>
        if capture.generation == generation && capture.view == view {
          active := Executing(capture, true);
        }
      case Ready(capture, token) =>
        if capture.generation == generation && capture.view == view {
          active := Idle;
        }
      case Idle =>
      case Restoring(request) =>
    }

    method FailPersistence()
      requires persistence.Some?
      modifies this`persistence, this`app
      ensures persistence.None? && app == Finished(old(app), old(persistence).value.capture, false)
      ensures app.views == old(app.views)
    {
      var capture := persistence.value.capture;
      persistence := None;
      app := FinishRun(app, capture.generation, capture.view, capture.revision, false);
    }

    /** The run is prepared, or its review refused; without its view nobody is told. */
    twostate predicate Prepares(generation: nat, view: View, revision: nat, stage: Stage, freezes: bool)
      reads this
    {
      if old(!Busy() && Preparable(app, view, revision, stage)) && freezes then
        && active == Active.Preparing(CaptureOf(uuid, old(app), generation, view, revision, stage), false)
        && app == old(app)
      else
        && active == old(active)
        && app == (if old(!Busy() && view !in app.views) then old(app)
                   else FinishReview(old(app), generation, view, revision, None))
    }

    /** Freeze the input of a run, unless anything else is going on. */
    method PrepareRun(generation: nat, view: View, revision: nat, stage: Stage, freezes: bool)
      requires Valid()
      modifies this`active, this`app, this`log
      ensures Valid() && Prepares(generation, view, revision, stage, freezes) && app.views == old(app.views)
      ensures active != old(active) ==> CommandFence(uuid, app, active.capture) && FrozenIn(log, active.capture)
      ensures old(log) <= log
    {
      if Busy() || (view in app.views && app.views[view].pendingQuery) {
        app := FinishReview(app, generation, view, revision, None);
        return;
      }
      if view !in app.views {
        return;
      }
      var state := app.views[view];
      var prefix := ChainPrefix(state.chain, stage);
      if prefix.None? || stage !in state.runs || state.runs[stage].revision != revision || !freezes {
        app := FinishReview(app, generation, view, revision, None);
        return;
      }
      var capture := CaptureOf(uuid, app, generation, view, revision, stage);
      LogAppend(uuid, log, Frozen(capture, prefix.value));
      log := log + [Frozen(capture, prefix.value)];
      active := Active.Preparing(capture, false);
    }

    /** The run starts, or it is over before it has. */
    twostate predicate Starts(generation: nat, view: View, revision: nat, stage: Stage, token: string)
      reads this
    {
      if old(active.Ready?) && old(active.token) == token
        && Asks(old(active.capture), generation, view, revision, stage)
        && CommandFence(uuid, old(app), old(active.capture))
      then active == Executing(old(active.capture), false) && app == old(app)
      else active == old(active) && app == FinishRun(old(app), generation, view, revision, false)
    }

    /** Run what was reviewed: same token, same step, and the fence still holds. */
    method Execute(generation: nat, view: View, revision: nat, stage: Stage, token: string)
      requires Valid()
      modifies this`active, this`app, this`log
      ensures Valid() && Starts(generation, view, revision, stage, token) && app.views == old(app.views)
      ensures old(log) <= log
    {
      if !active.Ready? {
        app := FinishRun(app, generation, view, revision, false);
        return;
      }
      var capture := active.capture;
      if capture.generation != generation || capture.view != view || capture.stage != stage
        || capture.revision != revision || active.token != token || !CommandFence(uuid, app, capture)
      {
        app := FinishRun(app, generation, view, revision, false);
        return;
      }
      LogAppend(uuid, log, Started(capture, token));
      log := log + [Started(capture, token)];
      active := Executing(capture, false);
    }

    // --- workers --------------------------------------------------------------------------------------

    /** The prepared input is shown under a fresh token, unless it went stale meanwhile. */
    method PollPreparing(answer: Answer)
      requires Valid() && active.Preparing?
      modifies this`active, this`app, this`log
      ensures Valid() && app.views == old(app.views)
      ensures active == if answer.NotYet? then old(active)
        else if answer.PreparedInput? && !old(active.cancelled) && CommandFence(uuid, old(app), old(active.capture))
          && Reviewing(old(app), old(active.capture).generation, old(active.capture).view, old(active.capture).revision)
        then Active.Ready(old(active.capture), answer.token) else Idle
      ensures active.Ready? ==> PresentedIn(log, active.capture, answer.token) && DialogShowsToken(app, answer.token)
      ensures app == (
        if active.Ready? || (!answer.NotYet? && !answer.PreparedInput?)
        then FinishReview(old(app), old(active.capture).generation, old(active.capture).view,
                          old(active.capture).revision, if active.Ready? then Some(answer.token) else None)
        else old(app))
      ensures old(log) <= log
    {
      var capture, cancelled := active.capture, active.cancelled;
      if answer.NotYet? {
        return;
      }
      active := Idle;
      if !answer.PreparedInput? {
        app := FinishReview(app, capture.generation, capture.view, capture.revision, None);
        return;
      }
      if !cancelled && CommandFence(uuid, app, capture)
        && Reviewing(app, capture.generation, capture.view, capture.revision)
      {
        app := FinishReview(app, capture.generation, capture.view, capture.revision, Some(answer.token));
        LogAppend(uuid, log, Presented(capture, answer.token));
        log := log + [Presented(capture, answer.token)];
        active := Active.Ready(capture, answer.token);
      }
    }

    /** A result is queued for saving only while it is still wanted and would fit. */
    method PollExecuting(answer: Answer)
      requires Valid() && active.Executing?
      modifies this`active, this`persistence, this`app
      ensures Valid() && app.views == old(app.views)
      ensures active == if answer.NotYet? then old(active) else Idle
      ensures persistence ==
        if Wanted(answer, old(active), old(app)) && CommandFence(uuid, old(app), old(active.capture))
          && CanPublish(presentation.publications, KeyOf(old(active.capture)), answer.rows)
        then Some(Persistence(old(active.capture), answer.reference.value, answer.rows, None, None)) else None
      ensures app ==
        if answer.NotYet? || persistence.Some? then old(app) else Finished(old(app), old(active.capture), false)
    {
      var capture, cancelled := active.capture, active.cancelled;
      if answer.NotYet? {
        return;
      }
      active := Idle;
      if answer.Executed? && !cancelled && CommandFence(uuid, app, capture) && DialogRunning(app, capture) {
        var admitted := presentation.Admit(KeyOf(capture), answer.rows);
        if admitted.Ok? && answer.reference.Some? {
          persistence := Some(Persistence(capture, answer.reference.value, answer.rows, None, None));
          return;
        }
      }
      app := FinishRun(app, capture.generation, capture.view, capture.revision, false);
    }

    /** A restored publication is shown if the view still refers to it and it fits. */
    method PollRestoring(answer: Answer)
      requires Valid() && active.Restoring?
      modifies this`active, presentation`publications, presentation`revision
      ensures Valid() && active == if answer.NotYet? then old(active) else Idle
      ensures presentation.publications == if answer.Restored?
          && PublicationOf(app, old(active.request.key)) == Some(old(active.request.reference))
          && CanPublish(old(presentation.publications), old(active.request.key), answer.rows)
        then old(presentation.publications)[old(active.request.key) := Publication(answer.rows, Bytes(answer.rows))]
        else old(presentation.publications)
    {
      var request := active.request;
      if answer.NotYet? {
        return;
      }
      active := Idle;
      if answer.Restored? && PublicationOf(app, request.key) == Some(request.reference) {
        var published := presentation.Publish(request.key, answer.rows);
      }
    }

    /** A review nobody looks at any more is dropped. */
    method ReconcileReady()
      requires Valid()
      modifies this`active
      ensures Valid()
      ensures active == if old(active.Ready?)
        && !(CommandFence(uuid, app, old(active.capture)) && DialogShows(app, old(active.capture), old(active.token)))
        then Idle else old(active)
    {
      if active.Ready?
        && (!CommandFence(uuid, app, active.capture) || !DialogShows(app, active.capture, active.token))
      {
        active := Idle;
      }
    }

    // --- saving -----------------------------------------------------------------------------------------

    /**
     * The commit point. The fence is checked once more against the freshest state, and the save
     * differs from that state only in the one reference.
     */
    method DispatchPersistence(accepted: bool, sourceKnown: bool)
      requires Valid()
      modifies this`persistence, this`app, this`memorySequence, this`memoryInflight, this`log
      ensures Valid() && app.views == old(app.views)
      ensures old(Waits(persistence, memoryInflight)) ==> persistence == old(persistence) && log == old(log)
      ensures !old(Waits(persistence, memoryInflight)) ==>
        var pending := old(persistence.value);
        if !sourceKnown || !DialogRunning(old(app), pending.capture) || !CommandFence(uuid, old(app), pending.capture)
        then persistence.None? && log == old(log)
        else if accepted
        then persistence == Some(SentAs(pending, old(memorySequence))) && log == old(log) + [SaveOf(old(app), pending)]
        else persistence == Some(SentAs(pending, old(memorySequence)).(sequence := None)) && log == old(log)
      ensures app == AfterDispatch(old(app), old(persistence), persistence)
      ensures memorySequence == (
        if persistence.Some? && !old(Waits(persistence, memoryInflight)) && old(persistence).value.reserved.None?
        then old(memorySequence) + 1 else old(memorySequence))
      ensures memoryInflight == (
        if persistence.Some? && persistence.value.sequence.Some? && !old(Waits(persistence, memoryInflight))
        then old(memoryInflight)[persistence.value.sequence.value := persistence.value.capture.view]
        else old(memoryInflight))
    {
      if Waits(persistence, memoryInflight) {
        return;
      }
      var pending := persistence.value;
      var capture := pending.capture;
      if !DialogRunning(app, capture) || !CommandFence(uuid, app, capture) || !sourceKnown {
        FailPersistence();
        return;
      }
      var sequence := if pending.reserved.Some? then pending.reserved.value else memorySequence + 1;
      memorySequence := if pending.reserved.Some? then memorySequence else sequence;
      if !accepted {
        persistence := Some(pending.(reserved := Some(sequence)));
        return;
      }
      Send(sequence);
    }

    /** The store's queue took the save: from here on it is in flight. */
    method Send(sequence: nat)
      requires Valid() && persistence.Some? && CommandFence(uuid, app, persistence.value.capture)
      modifies this`persistence, this`app, this`memoryInflight, this`log
      ensures Valid() && app.views == old(app.views)
      ensures app == BeginSave(old(app), old(persistence).value.capture)
      ensures persistence == Some(old(persistence.value).(reserved := Some(sequence), sequence := Some(sequence)))
      ensures memoryInflight == old(memoryInflight)[sequence := old(persistence.value).capture.view]
      ensures log == old(log) + [SaveOf(old(app), old(persistence.value))]
    {
      var pending := persistence.value;
      var capture := pending.capture;
      var sent := pending.(reserved := Some(sequence), sequence := Some(sequence));
      memoryInflight := memoryInflight[sequence := capture.view];
      SaveLogged(uuid, app, log, pending, sent);
      log := log + [SaveOf(app, pending)];
      persistence := Some(sent);
      app := BeginResultSave(app, capture.generation, capture.view, capture.revision);
    }

    /** The save is attached and published, or has failed, or nobody waited for this. */
    twostate predicate Hears(event: MemoryEvent)
      reads this, presentation
    {
      var pending := old(persistence);
      && persistence == (if Settles(pending, event) then None else pending)
      && (if Commits(old(app), pending, event) then
            && app == Finished(CommitPublication(old(app), pending.value.capture, pending.value.reference),
                               pending.value.capture, true)
            && presentation.publications == old(presentation.publications)[
                 KeyOf(pending.value.capture) := Publication(pending.value.rows, Bytes(pending.value.rows))]
            && observed == old(observed)[KeyOf(pending.value.capture) := Some(pending.value.reference)]
            && log == old(log) + [Attached(pending.value.capture, pending.value.reference)]
          else
            && app == (if Settles(pending, event) && !event.Saved? then Finished(old(app), pending.value.capture, false)
                       else old(app))
            && presentation.publications == old(presentation.publications) && observed == old(observed)
            && log == old(log))
    }

    /**
     * The store has answered. Once the reference is durable and still attachable, publication
     * cannot fail; in every other case the previous reference and publication stay.
     */
    method HandleMemoryEvent(event: MemoryEvent)
      requires Valid()
      modifies this`persistence, this`app, this`observed, this`log, presentation`publications, presentation`revision
      ensures Valid() && Hears(event)
    {
      if !Settles(persistence, event) {
        return;
      }
      if !event.Saved? {
        FailPersistence();
        return;
      }
      if Attachable(app, persistence.value.capture) {
        Attach();
      } else {
        persistence := None;
      }
    }

    /** The durable result becomes the view's publication. */
    method Attach()
      requires Valid() && InFlight(persistence) && Attachable(app, persistence.value.capture)
      modifies this`persistence, this`app, this`observed, this`log, presentation`publications, presentation`revision
      ensures Valid() && persistence.None?
      ensures var pending := old(persistence.value);
        && app == Finished(CommitPublication(old(app), pending.capture, pending.reference), pending.capture, true)
        && observed == old(observed)[KeyOf(pending.capture) := Some(pending.reference)]
        && presentation.publications
           == old(presentation.publications)[KeyOf(pending.capture) := Publication(pending.rows, Bytes(pending.rows))]
        && log == old(log) + [Attached(pending.capture, pending.reference)]
    {
      var pending := persistence.value;
      var capture := pending.capture;
      persistence := None;
      app := CommitPublication(app, capture, pending.reference);
      observed := observed[KeyOf(capture) := Some(pending.reference)];
      AttachmentLogged(uuid, log, pending);
      log := log + [Attached(capture, pending.reference)];
      var published := presentation.Publish(KeyOf(capture), pending.rows);
      app := FinishRun(app, capture.generation, capture.view, capture.revision, published);
    }

    // --- restoring ------------------------------------------------------------------------------------------

    /** What following the views may change. */
    function Following(): Follow
      reads this, presentation
    {
      Follow(observed, restoreQueue, presentation.publications)
    }

    /** One command step: reload it when its reference changed, clear it when it has none. */
    method SyncStep(key: Key)
      requires Valid()
      modifies this`observed, this`restoreQueue, presentation`publications, presentation`revision
      ensures Valid() && Following() == Synced(old(Following()), app, key)
    {
      var reference := PublicationOf(app, key);
      if key in observed && observed[key] == reference {
        return;
      }
      if reference.Some? {
        var request := RestoreRequest(key, reference.value);
        if request in restoreQueue {
          observed := observed[key := reference];
        } else if |restoreQueue| < MAX_RESTORES {
          restoreQueue := restoreQueue + [request];
          observed := observed[key := reference];
        }
      } else {
        observed := observed[key := None];
        ghost var before := presentation.publications;
        presentation.Clear(key);
        if persistence.Some? {
          AdmissionSurvivesReduction(presentation.publications, before, KeyOf(persistence.value.capture),
                                     persistence.value.rows);
        }
      }
    }

    /** Steps that left their chains take their publications and queued restores with them. */
    method Forget(steps: map<View, seq<StepKey>>)
      requires Valid()
      modifies this`observed, this`restoreQueue
      modifies presentation`publications, presentation`configured, presentation`revision
      ensures Valid() && presentation.configured == steps
      ensures Following() == Forgotten(old(Following()), steps, old(presentation.configured), app)
    {
      observed := map key | key in observed && HasStep(steps, key) :: observed[key];
      restoreQueue := Retained(restoreQueue, steps, app);
      ghost var before := presentation.publications;
      presentation.Configure(steps);
      if persistence.Some? {
        AdmissionSurvivesReduction(presentation.publications, before, KeyOf(persistence.value.capture),
                                   persistence.value.rows);
      }
    }

    /** The steps of one view, in chain order. */
    method SyncView(view: View, steps: seq<StepKey>)
      requires Valid()
      modifies this`observed, this`restoreQueue, presentation`publications, presentation`revision
      ensures Valid() && Following() == SyncedView(old(Following()), app, view, steps, |steps|)
    {
      for i := 0 to |steps|
        invariant Valid() && Following() == SyncedView(old(Following()), app, view, steps, i)
      {
        SyncStep(Key(view, steps[i].stage));
      }
    }

    /** Every step of every chain, in any order of the views. */
    method SyncSteps(steps: map<View, seq<StepKey>>)
      requires Valid() && Current(restoreQueue, steps, app)
      modifies this`observed, this`restoreQueue, presentation`publications, presentation`revision
      ensures Valid() && Followed(old(Following()), Following(), app, steps, KeysOf(steps, steps.Keys))
    {
      ghost var before := Following();
      FollowNothing(before, app, steps);
      var views := steps.Keys;
      assert KeysOf(steps, {}) == {};
      assert steps.Keys - views == {};
      while views != {}
        invariant Valid() && views <= steps.Keys
        invariant Followed(before, Following(), app, steps, KeysOf(steps, steps.Keys - views))
        decreases views
      {
        var view :| view in views;
        ViewFollows(before, Following(), app, steps, KeysOf(steps, steps.Keys - views), view, |steps[view]|);
        SyncView(view, steps[view]);
        OneMoreView(steps, steps.Keys - views, view);
        assert steps.Keys - views + {view} == steps.Keys - (views - {view});
        views := views - {view};
      }
      assert steps.Keys - views == steps.Keys;
    }

    /**
     * Follow the views. Every step is looked at: what a step refers to is known, shown or queued, unless the
     * queue is full, and what left its chain is dropped. Nothing here ever raises a published byte, so a pending
     * publication stays admitted.
     */
    method FollowViews()
      requires Valid()
      modifies this`observed, this`restoreQueue, presentation
      ensures Valid() && presentation.configured == StepsOf(app)
      ensures UpToDate(old(Following()), old(presentation.configured), Following(), app)
    {
      var steps := StepsOf(app);
      ghost var before, configured := Following(), presentation.configured;
      ForgottenIsCurrent(before, steps, configured, app);
      Forget(steps);
      SyncSteps(steps);
      FollowingIsUpToDate(before, configured, Following(), app);
    }

    /** Follow the views; a controller with nothing to do then takes the first restore, if its reference decodes. */
    method SyncRestores(decodes: bool) returns (ghost queued: seq<RestoreRequest>)
      requires Valid()
      modifies this`active, this`observed, this`restoreQueue, presentation
      ensures Valid() && presentation.configured == StepsOf(app)
      ensures UpToDate(old(Following()), old(presentation.configured), Following().(queue := queued), app)
      ensures old(Busy()) || queued == [] ==> active == old(active) && restoreQueue == queued
      ensures !old(Busy()) && queued != [] ==>
        restoreQueue == queued[1..] && active == if decodes then Restoring(queued[0]) else old(active)
    {
      FollowViews();
      queued := restoreQueue;
      if !Busy() && restoreQueue != [] {
        var request := restoreQueue[0];
        restoreQueue := restoreQueue[1..];
        if decodes {
          active := Restoring(request);
        }
      }
    }
  }

  // --- following the views --------------------------------------------------------------------------------

  datatype Follow = Follow(observed: map<Key, Option<string>>, queue: seq<RestoreRequest>, publications: Publications)

  /** The reference has been seen and dealt with. */
  predicate Seen(follow: Follow, app: App, key: Key) {
    key in follow.observed && follow.observed[key] == PublicationOf(app, key)
  }

  function Synced(follow: Follow, app: App, key: Key): Follow {
    var reference := PublicationOf(app, key);
    if Seen(follow, app, key) then follow
    else if reference.None? then
      follow.(observed := follow.observed[key := None], publications := follow.publications - {key})
    else if RestoreRequest(key, reference.value) in follow.queue then
      follow.(observed := follow.observed[key := reference])
    else if |follow.queue| < MAX_RESTORES then
      follow.(observed := follow.observed[key := reference],
              queue := follow.queue + [RestoreRequest(key, reference.value)])
    else follow
  }

  function Forgotten(follow: Follow, steps: map<View, seq<StepKey>>, configured: map<View, seq<StepKey>>, app: App)
    : Follow
  {
    Follow(
      map key | key in follow.observed && HasStep(steps, key) :: follow.observed[key],
      Retained(follow.queue, steps, app),
      if configured == steps then follow.publications else Kept(follow.publications, steps))
  }

  function KeysIn(view: View, steps: seq<StepKey>, n: nat): set<Key>
    requires n <= |steps|
  {
    set i | 0 <= i < n :: Key(view, steps[i].stage)
  }

  function KeysOf(steps: map<View, seq<StepKey>>, views: set<View>): set<Key>
    requires views <= steps.Keys
  {
    set view, i | view in views && 0 <= i < |steps[view]| :: Key(view, steps[view][i].stage)
  }

  lemma OneMoreView(steps: map<View, seq<StepKey>>, views: set<View>, view: View)
    requires views <= steps.Keys && view in steps
    ensures KeysOf(steps, views) + KeysIn(view, steps[view], |steps[view]|) == KeysOf(steps, views + {view})
  {
  }

  /** The command steps of all views. */
  function AllKeys(app: App): set<Key> {
    KeysOf(StepsOf(app), StepsOf(app).Keys)
  }

  /** Every queued restore is of a step, and asks for the reference the step has now. */
  ghost predicate Current(queue: seq<RestoreRequest>, steps: map<View, seq<StepKey>>, app: App) {
    forall i :: 0 <= i < |queue| ==>
      HasStep(steps, queue[i].key) && PublicationOf(app, queue[i].key) == Some(queue[i].reference)
  }

  /**
   * Following from `before`, with the steps `done` looked at. Told without saying how: what each step refers to
   * is observed, and queued if it was not, unless the queue is full; without a reference it is shown no more.
   */
  ghost predicate Followed(before: Follow, now: Follow, app: App, steps: map<View, seq<StepKey>>, done: set<Key>) {
    && ObservedSo(before, now, app, done) && QueuedSo(before, now, app, steps, done)
    && ShownSo(before, now, app, done)
  }

  ghost predicate ObservedSo(before: Follow, now: Follow, app: App, done: set<Key>) {
    && (forall key :: key !in done ==> SameObserved(before, now, key))
    && (forall key :: key in done ==>
          Seen(now, app, key)
          || (PublicationOf(app, key).Some? && |now.queue| == MAX_RESTORES && SameObserved(before, now, key)))
  }

  ghost predicate SameObserved(before: Follow, now: Follow, key: Key) {
    && (key in now.observed <==> key in before.observed)
    && (key in before.observed ==> now.observed[key] == before.observed[key])
  }

  ghost predicate QueuedSo(before: Follow, now: Follow, app: App, steps: map<View, seq<StepKey>>, done: set<Key>) {
    && before.queue <= now.queue && |now.queue| <= MAX_RESTORES && Current(now.queue, steps, app)
    && (forall i :: |before.queue| <= i < |now.queue| ==>
          now.queue[i].key in done && !Seen(before, app, now.queue[i].key) && now.queue[i] !in now.queue[..i])
    && (forall key :: key in done && !Seen(before, app, key) && PublicationOf(app, key).Some? ==>
          RestoreRequest(key, PublicationOf(app, key).value) in now.queue || |now.queue| == MAX_RESTORES)
  }

  ghost predicate ShownSo(before: Follow, now: Follow, app: App, done: set<Key>) {
    && (forall key :: key in now.publications <==>
          key in before.publications && !(key in done && PublicationOf(app, key).None? && !Seen(before, app, key)))
    && Reduced(now.publications, before.publications)
  }

  lemma FollowNothing(before: Follow, app: App, steps: map<View, seq<StepKey>>)
    requires |before.queue| <= MAX_RESTORES && Current(before.queue, steps, app)
    ensures Followed(before, before, app, steps, {})
  {
  }

  lemma ObservedNext(before: Follow, now: Follow, app: App, done: set<Key>, key: Key)
    requires ObservedSo(before, now, app, done) && |now.queue| <= MAX_RESTORES
    ensures ObservedSo(before, Synced(now, app, key), app, done + {key})
  {
  }

  lemma QueuedNext(before: Follow, now: Follow, app: App, steps: map<View, seq<StepKey>>, done: set<Key>, key: Key)
    requires ObservedSo(before, now, app, done) && QueuedSo(before, now, app, steps, done) && HasStep(steps, key)
    ensures QueuedSo(before, Synced(now, app, key), app, steps, done + {key})
  {
    var next := Synced(now, app, key);
    assert now.queue <= next.queue;
    if next.queue != now.queue {
      assert next.queue[|now.queue|] == RestoreRequest(key, PublicationOf(app, key).value);
      assert !Seen(before, app, key);
    }
  }

  lemma ShownNext(before: Follow, now: Follow, app: App, done: set<Key>, key: Key)
    requires ObservedSo(before, now, app, done) && ShownSo(before, now, app, done)
    ensures ShownSo(before, Synced(now, app, key), app, done + {key})
  {
  }

  /** One more step looked at. */
  lemma FollowNext(before: Follow, now: Follow, app: App, steps: map<View, seq<StepKey>>, done: set<Key>, key: Key)
    requires Followed(before, now, app, steps, done) && HasStep(steps, key)
    ensures Followed(before, Synced(now, app, key), app, steps, done + {key})
  {
    ObservedNext(before, now, app, done, key);
    QueuedNext(before, now, app, steps, done, key);
    ShownNext(before, now, app, done, key);
  }

  /** A command step of some view's present chain. */
  ghost predicate IsStep(app: App, key: Key) {
    key.view in app.views
    && exists k :: 0 <= k < |app.views[key.view].chain| && IsCommandAt(app.views[key.view].chain, k, key.stage)
  }

  predicate IsCommandAt(chain: seq<Definition>, k: nat, stage: Stage)
    requires k < |chain|
  {
    chain[k].id == stage && chain[k].command.Some?
  }

  /** The views have been followed. */
  ghost predicate UpToDate(before: Follow, configured: map<View, seq<StepKey>>, now: Follow, app: App) {
    StepsKnown(now, app) && StepsQueued(before, now, app) && StepsShown(before, configured, now, app)
  }

  /** Only present steps are known, and what each refers to is, unless the queue is full. */
  ghost predicate StepsKnown(now: Follow, app: App) {
    && (forall key :: key in now.observed ==> IsStep(app, key))
    && (forall key :: IsStep(app, key) ==>
          Seen(now, app, key) || (PublicationOf(app, key).Some? && |now.queue| == MAX_RESTORES))
  }

  /** Restores wait in the order they came: those that still hold, then the new ones. */
  ghost predicate FirstComeFirst(before: Follow, now: Follow, app: App, picks: seq<nat>) {
    && |picks| <= |now.queue| && Picked(now.queue[..|picks|], before.queue, picks)
    && (forall k: nat :: k in picks <==> k < |before.queue| && Wanting(app, before.queue[k]))
    && (forall i :: |picks| <= i < |now.queue| ==>
          !Seen(before, app, now.queue[i].key) && now.queue[i] !in now.queue[..i])
  }

  /** Queued are the restores that were queued and still hold, and one for every reference not known before. */
  ghost predicate StepsQueued(before: Follow, now: Follow, app: App) {
    && (exists picks :: FirstComeFirst(before, now, app, picks))
    && (forall request :: request in now.queue ==> Wanting(app, request))
    && (forall request :: request in before.queue && Wanting(app, request) ==> request in now.queue)
    && (forall request :: request in now.queue ==> request in before.queue || !Seen(before, app, request.key))
    && (forall key :: IsStep(app, key) && PublicationOf(app, key).Some? && !Seen(before, app, key) ==>
          RestoreRequest(key, PublicationOf(app, key).value) in now.queue || |now.queue| == MAX_RESTORES)
  }

  /**
   * Departed steps are shown no more when the chains have changed, and steps without a reference when they were
   * not known to have none; all others are shown as before.
   */
  ghost predicate StepsShown(before: Follow, configured: map<View, seq<StepKey>>, now: Follow, app: App) {
    && (forall key :: key in now.publications <==>
          key in before.publications && (configured == StepsOf(app) || IsStep(app, key))
          && !(IsStep(app, key) && PublicationOf(app, key).None? && !Seen(before, app, key)))
    && Reduced(now.publications, before.publications)
  }

  /** The step is there and still has the reference asked for. */
  ghost predicate Wanting(app: App, request: RestoreRequest) {
    IsStep(app, request.key) && PublicationOf(app, request.key) == Some(request.reference)
  }

  lemma {:induction false} StepIsCommand(chain: seq<Definition>, stage: Stage)
    ensures (exists i :: 0 <= i < |CommandSteps(chain)| && CommandSteps(chain)[i].stage == stage)
      <==> exists k :: 0 <= k < |chain| && IsCommandAt(chain, k, stage)
  {
    if chain != [] {
      var n := |chain| - 1;
      StepIsCommand(chain[..n], stage);
      var front, steps := CommandSteps(chain[..n]), CommandSteps(chain);
      if exists k :: 0 <= k < n && IsCommandAt(chain[..n], k, stage) {
        var k :| 0 <= k < n && IsCommandAt(chain[..n], k, stage);
        assert IsCommandAt(chain, k, stage);
        var i :| 0 <= i < |front| && front[i].stage == stage;
        assert steps[i].stage == stage;
      } else {
        assert forall k :: 0 <= k < n ==> !IsCommandAt(chain, k, stage) by {
          forall k | 0 <= k < n ensures !IsCommandAt(chain, k, stage) {
            assert !IsCommandAt(chain[..n], k, stage);
          }
        }
        if IsCommandAt(chain, n, stage) {
          assert steps[|front|].stage == stage;
        }
      }
    }
  }

  lemma StepsAreCommands(app: App, key: Key)
    ensures HasStep(StepsOf(app), key) <==> IsStep(app, key)
    ensures key in AllKeys(app) <==> IsStep(app, key)
  {
    if key.view in app.views {
      StepIsCommand(app.views[key.view].chain, key.stage);
    }
    var steps := StepsOf(app);
    if HasStep(steps, key) {
      var i :| 0 <= i < |steps[key.view]| && steps[key.view][i].stage == key.stage;
      assert Key(key.view, steps[key.view][i].stage) == key;
    }
  }

  lemma {:induction false} RetainedAre(queue: seq<RestoreRequest>, app: App)
    ensures forall request ::
      request in Retained(queue, StepsOf(app), app) <==> request in queue && Wanting(app, request)
  {
    if queue != [] {
      var n := |queue| - 1;
      RetainedAre(queue[..n], app);
      StepsAreCommands(app, queue[n].key);
      SplitLast(queue);
    }
  }

  ghost function RetainedAt(queue: seq<RestoreRequest>, app: App): seq<nat> {
    if queue == [] then []
    else
      var n := |queue| - 1;
      RetainedAt(queue[..n], app) + if Wanting(app, queue[n]) then [n] else []
  }

  lemma {:induction false} RetainedInOrder(queue: seq<RestoreRequest>, app: App)
    ensures Picked(Retained(queue, StepsOf(app), app), queue, RetainedAt(queue, app))
  {
    if queue != [] {
      var n := |queue| - 1;
      RetainedInOrder(queue[..n], app);
      StepsAreCommands(app, queue[n].key);
      SplitLast(queue);
      PickedNext(Retained(queue[..n], StepsOf(app), app), queue[..n], RetainedAt(queue[..n], app), queue[n],
                 Wanting(app, queue[n]));
    }
  }

  lemma {:induction false} RetainedPositions(queue: seq<RestoreRequest>, app: App, k: nat)
    ensures k in RetainedAt(queue, app) <==> k < |queue| && Wanting(app, queue[k])
  {
    if queue != [] {
      RetainedPositions(queue[..|queue| - 1], app, k);
    }
  }

  lemma FollowedKeepsOrder(before: Follow, configured: map<View, seq<StepKey>>, now: Follow, app: App)
    requires QueuedSo(Forgotten(before, StepsOf(app), configured, app), now, app, StepsOf(app), AllKeys(app))
    requires KeysAgree(app)
    ensures FirstComeFirst(before, now, app, RetainedAt(before.queue, app))
  {
    var start, picks := Forgotten(before, StepsOf(app), configured, app), RetainedAt(before.queue, app);
    RetainedInOrder(before.queue, app);
    assert start.queue == now.queue[..|picks|];
    forall k: nat ensures k in picks <==> k < |before.queue| && Wanting(app, before.queue[k]) {
      RetainedPositions(before.queue, app, k);
    }
    forall i | |picks| <= i < |now.queue|
      ensures !Seen(before, app, now.queue[i].key) && now.queue[i] !in now.queue[..i]
    {
      assert now.queue[i].key in AllKeys(app) && !Seen(start, app, now.queue[i].key);
    }
  }

  /** `AllKeys` and the steps of the present chains are the same. */
  ghost predicate KeysAgree(app: App) {
    forall key :: (key in AllKeys(app) <==> IsStep(app, key)) && (HasStep(StepsOf(app), key) <==> IsStep(app, key))
  }

  lemma FollowedKnows(before: Follow, configured: map<View, seq<StepKey>>, now: Follow, app: App)
    requires ObservedSo(Forgotten(before, StepsOf(app), configured, app), now, app, AllKeys(app)) && KeysAgree(app)
    ensures StepsKnown(now, app)
  {
    var start := Forgotten(before, StepsOf(app), configured, app);
    forall key | key in now.observed ensures IsStep(app, key) {
      assert key !in AllKeys(app) ==> SameObserved(start, now, key);
    }
    forall key | IsStep(app, key)
      ensures Seen(now, app, key) || (PublicationOf(app, key).Some? && |now.queue| == MAX_RESTORES)
    {
      assert key in AllKeys(app);
    }
  }

  lemma FollowedQueues(before: Follow, configured: map<View, seq<StepKey>>, now: Follow, app: App)
    requires QueuedSo(Forgotten(before, StepsOf(app), configured, app), now, app, StepsOf(app), AllKeys(app))
    requires KeysAgree(app)
    ensures StepsQueued(before, now, app)
  {
    var start := Forgotten(before, StepsOf(app), configured, app);
    FollowedKeepsOrder(before, configured, now, app);
    RetainedAre(before.queue, app);
    forall request | request in now.queue
      ensures Wanting(app, request) && (request in before.queue || !Seen(before, app, request.key))
    {
      var i :| 0 <= i < |now.queue| && now.queue[i] == request;
      assert i < |start.queue| ==> request in start.queue;
      assert i >= |start.queue| ==> request.key in AllKeys(app) && !Seen(start, app, request.key);
    }
    forall key | IsStep(app, key) && PublicationOf(app, key).Some? && !Seen(before, app, key)
      ensures RestoreRequest(key, PublicationOf(app, key).value) in now.queue || |now.queue| == MAX_RESTORES
    {
      assert key in AllKeys(app) && !Seen(start, app, key);
    }
  }

  lemma FollowedShows(before: Follow, configured: map<View, seq<StepKey>>, now: Follow, app: App)
    requires ShownSo(Forgotten(before, StepsOf(app), configured, app), now, app, AllKeys(app)) && KeysAgree(app)
    ensures StepsShown(before, configured, now, app)
  {
    var start := Forgotten(before, StepsOf(app), configured, app);
    forall key
      ensures key in start.publications <==>
        key in before.publications && (configured == StepsOf(app) || IsStep(app, key))
      ensures key in AllKeys(app) ==> (Seen(start, app, key) <==> Seen(before, app, key))
    {
      assert key in AllKeys(app) <==> IsStep(app, key);
    }
  }

  lemma FollowingIsUpToDate(before: Follow, configured: map<View, seq<StepKey>>, now: Follow, app: App)
    requires Followed(Forgotten(before, StepsOf(app), configured, app), now, app, StepsOf(app), AllKeys(app))
    ensures UpToDate(before, configured, now, app)
  {
    forall key
      ensures (key in AllKeys(app) <==> IsStep(app, key)) && (HasStep(StepsOf(app), key) <==> IsStep(app, key))
    {
      StepsAreCommands(app, key);
    }
    FollowedKnows(before, configured, now, app);
    FollowedQueues(before, configured, now, app);
    FollowedShows(before, configured, now, app);
  }

  // --- what following the views leaves to be desired ----------------------------------------------------------

  /** Every publication is of a present step exactly if the chains have changed, or all were before. */
  lemma DepartedStepsAreDropped(before: Follow, configured: map<View, seq<StepKey>>, now: Follow, app: App)
    requires UpToDate(before, configured, now, app)
    ensures (forall key :: key in now.publications ==> IsStep(app, key)) <==>
      (configured != StepsOf(app) || forall key :: key in before.publications ==> IsStep(app, key))
  {
  }

  /** No step without a reference is shown exactly if none was shown that was known to have none. */
  lemma UnreferredStepsAreCleared(before: Follow, configured: map<View, seq<StepKey>>, now: Follow, app: App)
    requires UpToDate(before, configured, now, app)
    ensures (forall key :: IsStep(app, key) && PublicationOf(app, key).None? ==> key !in now.publications) <==>
      forall key :: IsStep(app, key) && PublicationOf(app, key).None? && Seen(before, app, key) ==>
        key !in before.publications
  {
  }

  function SyncedView(follow: Follow, app: App, view: View, steps: seq<StepKey>, n: nat): Follow
    requires n <= |steps|
  {
    if n == 0 then follow else Synced(SyncedView(follow, app, view, steps, n - 1), app, Key(view, steps[n - 1].stage))
  }

  lemma {:induction false} ViewFollows(before: Follow, now: Follow, app: App, steps: map<View, seq<StepKey>>,
        done: set<Key>, view: View, n: nat)
    requires Followed(before, now, app, steps, done) && view in steps && n <= |steps[view]|
    ensures
      Followed(before, SyncedView(now, app, view, steps[view], n), app, steps, done + KeysIn(view, steps[view], n))
  {
    if n == 0 {
      assert done + KeysIn(view, steps[view], 0) == done;
    } else {
      ViewFollows(before, now, app, steps, done, view, n - 1);
      FollowNext(before, SyncedView(now, app, view, steps[view], n - 1), app, steps,
                 done + KeysIn(view, steps[view], n - 1), Key(view, steps[view][n - 1].stage));
      KeysInNext(done, view, steps[view], n);
    }
  }

  lemma KeysInNext(done: set<Key>, view: View, steps: seq<StepKey>, n: nat)
    requires 0 < n <= |steps|
    ensures done + KeysIn(view, steps, n - 1) + {Key(view, steps[n - 1].stage)} == done + KeysIn(view, steps, n)
  {
  }

  lemma ForgottenIsCurrent(follow: Follow, steps: map<View, seq<StepKey>>, configured: map<View, seq<StepKey>>,
        app: App)
    ensures Current(Forgotten(follow, steps, configured, app).queue, steps, app)
  {
    RetainedIsCurrent(follow.queue, steps, app);
  }

  /** The results of a capture are being saved. */
  function BeginSave(app: App, capture: Capture): App {
    BeginResultSave(app, capture.generation, capture.view, capture.revision)
  }

  /** What a dispatch tells the dialog: the save is gone, has been sent, or still waits. */
  function AfterDispatch(app: App, before: Option<Persistence>, after: Option<Persistence>): App {
    if before.None? || before.value.sequence.Some? then app
    else if after.None? then Finished(app, before.value.capture, false)
    else if after.value.sequence.Some? then BeginSave(app, before.value.capture)
    else app
  }

  predicate Settles(persistence: Option<Persistence>, event: MemoryEvent) {
    persistence.Some? && match event {
      case Saved(sequence) => persistence.value.sequence == Some(sequence)
      case SaveFailed(sequence) => persistence.value.sequence == Some(sequence)
      case Fatal => true
      case Other => false
    }
  }

  /** The awaited acknowledgement, while its reference can still be attached. */
  predicate Commits(app: App, persistence: Option<Persistence>, event: MemoryEvent) {
    Settles(persistence, event) && event.Saved? && Attachable(app, persistence.value.capture)
  }

  function CommandSteps(chain: seq<Definition>): seq<StepKey> {
    if chain == [] then []
    else
      var front, last := CommandSteps(chain[..|chain| - 1]), chain[|chain| - 1];
      if last.command.Some? then front + [StepKey(last.id, last.source)] else front
  }

  function StepsOf(app: App): map<View, seq<StepKey>> {
    map view | view in app.views :: CommandSteps(app.views[view].chain)
  }

  function Retained(queue: seq<RestoreRequest>, steps: map<View, seq<StepKey>>, app: App): (kept: seq<RestoreRequest>)
    ensures |kept| <= |queue|
  {
    if queue == [] then []
    else
      var front, last := Retained(queue[..|queue| - 1], steps, app), queue[|queue| - 1];
      if HasStep(steps, last.key) && PublicationOf(app, last.key) == Some(last.reference) then front + [last] else front
  }

  lemma {:induction false} RetainedIsCurrent(queue: seq<RestoreRequest>, steps: map<View, seq<StepKey>>, app: App)
    ensures Current(Retained(queue, steps, app), steps, app)
  {
    if queue != [] {
      RetainedIsCurrent(queue[..|queue| - 1], steps, app);
    }
  }

  predicate InFlight(persistence: Option<Persistence>) {
    persistence.Some? && persistence.value.sequence.Some?
  }

  predicate Savable(app: App, pending: Persistence) {
    pending.capture.view in app.views && pending.capture.stage in app.views[pending.capture.view].runs
  }

  /** The save dispatched for `pending` in the present state of the application. */
  ghost function SaveOf(app: App, pending: Persistence): Entry
    requires Savable(app, pending)
  {
    var base := app.views[pending.capture.view];
    var saved := WithPublication(base, pending.capture.stage, pending.reference);
    Dispatched(pending.capture, base, saved, pending.reference)
  }

  lemma SaveLogged(uuid: seq<Byte> -> string, app: App, log: seq<Entry>, pending: Persistence, sent: Persistence)
    requires LogSound(uuid, log) && PersistenceSound(pending, log) && CommandFence(uuid, app, pending.capture)
    requires sent.capture == pending.capture && sent.reference == pending.reference
    ensures LogSound(uuid, log + [SaveOf(app, pending)]) && PersistenceSound(sent, log + [SaveOf(app, pending)])
  {
    LogAppend(uuid, log, SaveOf(app, pending));
  }

  lemma AttachmentLogged(uuid: seq<Byte> -> string, log: seq<Entry>, pending: Persistence)
    requires LogSound(uuid, log) && PersistenceSound(pending, log) && pending.sequence.Some?
    ensures LogSound(uuid, log + [Attached(pending.capture, pending.reference)])
  {
    LogAppend(uuid, log, Attached(pending.capture, pending.reference));
  }

  /** What a cancel request does to the operation under way. */
  function Cancelled(active: Active, generation: nat, view: View): Active {
    match active
    case Preparing(capture, _) =>
      if capture.generation == generation && capture.view == view then Active.Preparing(capture, true) else active
    case Executing(capture, _) =>
      if capture.generation == generation && capture.view == view then Executing(capture, true) else active
    case Ready(capture, _) => if capture.generation == generation && capture.view == view then Idle else active
    case _ => active
  }

  /** The saved definition is the one asked for, and the view has nothing pending. */
  predicate Preparable(app: App, view: View, revision: nat, stage: Stage) {
    && view in app.views && !app.views[view].pendingQuery
    && ChainPrefix(app.views[view].chain, stage).Some?
    && stage in app.views[view].runs && app.views[view].runs[stage].revision == revision
  }

  function CaptureOf(uuid: seq<Byte> -> string, app: App, generation: nat, view: View, revision: nat,
        stage: Stage): Capture
    requires Preparable(app, view, revision, stage)
  {
    Capture(generation, view, stage, revision, Fingerprint(uuid, ChainPrefix(app.views[view].chain, stage).value))
  }

  predicate Asks(capture: Capture, generation: nat, view: View, revision: nat, stage: Stage) {
    capture.generation == generation && capture.revision == revision && KeyOf(capture) == Key(view, stage)
  }

  predicate DialogShowsToken(app: App, token: string) {
    app.dialog.Some? && app.dialog.value.token == Some(token) && app.dialog.value.runState.Ready?
  }

  /** The run was not cancelled, its dialog still waits, and it has a result with a reference. */
  predicate Wanted(answer: Answer, active: Active, app: App)
    requires active.Executing?
  {
    answer.Executed? && answer.reference.Some? && !active.cancelled && DialogRunning(app, active.capture)
  }

  /** There is nothing to dispatch yet: no save, one in flight, or another save of the view in flight. */
  predicate Waits(persistence: Option<Persistence>, inflight: map<nat, View>) {
    persistence.None? || persistence.value.sequence.Some?
    || exists s :: s in inflight.Keys && inflight[s] == persistence.value.capture.view
  }

  /** A save keeps the sequence it was first given, however often it is offered to the store. */
  function SentAs(pending: Persistence, memorySequence: nat): Persistence {
    var sequence := if pending.reserved.Some? then pending.reserved.value else memorySequence + 1;
    pending.(reserved := Some(sequence), sequence := Some(sequence))
  }

  predicate Queueable(queue: seq<RestoreRequest>, key: Key, reference: Option<string>) {
    reference.Some? && RestoreRequest(key, reference.value) !in queue && |queue| < MAX_RESTORES
  }

  predicate QueuedPublication(persistence: Option<Persistence>, generation: nat, view: View) {
    persistence.Some? && persistence.value.sequence.None? && persistence.value.capture.view == view
    && persistence.value.capture.generation == generation
  }

  /** What the log must hold about the operation under way. */
  ghost predicate ActiveSound(active: Active, log: seq<Entry>) {
    match active
    case Idle => true
    case Preparing(capture, _) => FrozenIn(log, capture)
    case Ready(capture, token) => PresentedIn(log, capture, token)
    case Executing(capture, _) => StartedIn(log, capture)
    case Restoring(_) => true
  }

  ghost predicate PersistenceSound(pending: Persistence, log: seq<Entry>) {
    && StartedIn(log, pending.capture)
    && (pending.sequence.Some? ==> DispatchedIn(log, pending.capture, pending.reference))
  }

  // --- whole runs ---------------------------------------------------------------------------------------

  datatype Input =
    | AskCancel(generation: nat, view: View)
    | AskPrepare(generation: nat, view: View, revision: nat, stage: Stage, freezes: bool)
    | AskExecute(generation: nat, view: View, revision: nat, stage: Stage, token: string)
    | Tick(answer: Answer, decodes: bool, accepted: bool, sourceKnown: bool)
    | Memory(event: MemoryEvent)
    | Edited(app: App, newSaves: nat, inflight: map<nat, View>)
    | Abandon

  /** One look at the worker; nothing else ends what it does. */
  method PollWorker(controller: CommandController, answer: Answer)
    requires controller.Valid()
    modifies controller`active, controller`persistence, controller`app, controller`log,
      controller.presentation`publications, controller.presentation`revision
    ensures controller.Valid() && old(controller.log) <= controller.log
    ensures controller.app.views == old(controller.app.views)
    ensures answer.NotYet? || !old(Working(controller.active)) ==>
      controller.active == old(controller.active) && controller.persistence == old(controller.persistence)
      && controller.app == old(controller.app)
      && controller.presentation.publications == old(controller.presentation.publications)
    ensures !answer.NotYet? ==> !Working(controller.active)
    ensures old(Shows(controller, answer)) ==>
      controller.active == Active.Ready(old(controller.active).capture, answer.token)
      && DialogShowsToken(controller.app, answer.token)
    ensures !old(Shows(controller, answer)) && old(controller.active).Preparing? ==> !controller.active.Ready?
    ensures old(Keeps(controller, answer)) ==>
      controller.persistence == Some(Persistence(old(controller.active).capture, answer.reference.value, answer.rows,
                                                 None, None))
    ensures old(controller.active).Executing? && !old(Keeps(controller, answer)) ==> controller.persistence.None?
    ensures old(controller.active).Restoring? ==>
      controller.presentation.publications ==
        if old(Restores(controller, answer))
        then old(controller.presentation.publications)[
               old(controller.active).request.key := Publication(answer.rows, Bytes(answer.rows))]
        else old(controller.presentation.publications)
  {
    match controller.active
    case Idle =>
    case Preparing(_, _) => controller.PollPreparing(answer);
    case Ready(_, _) =>
    case Executing(_, _) => controller.PollExecuting(answer);
    case Restoring(_) => controller.PollRestoring(answer);
  }

  predicate Working(active: Active) {
    active.Preparing? || active.Executing? || active.Restoring?
  }

  /** The prepared input is to be shown. */
  ghost predicate Shows(controller: CommandController, answer: Answer)
    reads controller
  {
    && controller.active.Preparing? && answer.PreparedInput? && !controller.active.cancelled
    && CommandFence(controller.uuid, controller.app, controller.active.capture)
    && Reviewing(controller.app, controller.active.capture.generation, controller.active.capture.view,
                 controller.active.capture.revision)
  }

  /** The result is to be saved. */
  ghost predicate Keeps(controller: CommandController, answer: Answer)
    reads controller, controller.presentation
  {
    && controller.active.Executing? && Wanted(answer, controller.active, controller.app)
    && CommandFence(controller.uuid, controller.app, controller.active.capture)
    && CanPublish(controller.presentation.publications, KeyOf(controller.active.capture), answer.rows)
  }

  /** The restored publication is to be shown. */
  ghost predicate Restores(controller: CommandController, answer: Answer)
    reads controller, controller.presentation
  {
    && controller.active.Restoring? && answer.Restored?
    && PublicationOf(controller.app, controller.active.request.key) == Some(controller.active.request.reference)
    && CanPublish(controller.presentation.publications, controller.active.request.key, answer.rows)
  }

  /** A review on show is of a step as it is, in the dialog that shows it. */
  ghost predicate ReviewHolds(controller: CommandController)
    reads controller
  {
    controller.active.Ready? ==>
      CommandFence(controller.uuid, controller.app, controller.active.capture)
      && DialogShows(controller.app, controller.active.capture, controller.active.token)
  }

  /** The views are known, unless the queue is full; the first restore may just have been taken from it. */
  ghost predicate ViewsKnown(controller: CommandController)
    reads controller, controller.presentation
  {
    Known(controller.Following(), controller.restoreQueue, controller.presentation.configured,
          Views(controller.app.views))
  }

  /** All of an application that following its views looks at. */
  function Views(views: map<View, ViewState>): App {
    App(views, None, map[])
  }

  ghost predicate Known(now: Follow, left: seq<RestoreRequest>, configured: map<View, seq<StepKey>>, app: App) {
    && configured == StepsOf(app)
    && exists queued :: StepsKnown(now.(queue := queued), app)
         && (left == queued || (queued != [] && left == queued[1..]))
  }

  /** With nothing else to do: the views are followed and the first restore is taken, if there is one. */
  ghost predicate TakesRestore(before: Follow, configured: map<View, seq<StepKey>>, now: Follow, app: App,
        active: Active, decodes: bool)
  {
    exists queued ::
      UpToDate(before, configured, now.(queue := queued), app) && Took(queued, now.queue, active, decodes)
  }

  predicate Took(queued: seq<RestoreRequest>, left: seq<RestoreRequest>, active: Active, decodes: bool) {
    if queued == [] then left == [] && active.Idle?
    else left == queued[1..] && active == if decodes then Restoring(queued[0]) else Idle
  }

  /** Only the views of the application matter to what following them comes to. */
  lemma ViewsDecide(before: Follow, configured: map<View, seq<StepKey>>, now: Follow, a: App, b: App)
    requires a.views == b.views
    ensures StepsOf(a) == StepsOf(b)
    ensures StepsKnown(now, a) ==> StepsKnown(now, b)
    ensures UpToDate(before, configured, now, a) ==> UpToDate(before, configured, now, b)
  {
    assert forall key :: IsStep(a, key) <==> IsStep(b, key);
    assert forall key :: PublicationOf(a, key) == PublicationOf(b, key);
    assert forall key :: Seen(now, a, key) <==> Seen(now, b, key);
    assert forall key :: Seen(before, a, key) <==> Seen(before, b, key);
    assert forall request :: Wanting(a, request) <==> Wanting(b, request);
    if UpToDate(before, configured, now, a) {
      var picks :| FirstComeFirst(before, now, a, picks);
      assert FirstComeFirst(before, now, b, picks);
    }
  }

  /** The views are followed, and a controller with nothing else to do takes the first restore. */
  method FollowOn(controller: CommandController, decodes: bool)
    requires controller.Valid()
    modifies controller`active, controller`observed, controller`restoreQueue, controller.presentation
    ensures controller.Valid() && ViewsKnown(controller)
    ensures old(controller.Busy()) ==> controller.active == old(controller.active)
    ensures controller.active == old(controller.active) || controller.active.Restoring?
    ensures old(!controller.Busy()) ==>
      TakesRestore(old(controller.Following()), old(controller.presentation.configured), controller.Following(),
                   Views(controller.app.views), controller.active, decodes)
  {
    ghost var before, configured := controller.Following(), controller.presentation.configured;
    ghost var queued := controller.SyncRestores(decodes);
    ghost var now := controller.Following().(queue := queued);
    ViewsDecide(before, configured, now, controller.app, Views(controller.app.views));
  }

  /** The worker and the review, then the views. */
  method PollAndFollow(controller: CommandController, answer: Answer, decodes: bool)
    requires controller.Valid()
    modifies controller`active, controller`persistence, controller`app, controller`log, controller`observed,
      controller`restoreQueue, controller.presentation
    ensures controller.Valid() && old(controller.log) <= controller.log
    ensures controller.app.views == old(controller.app.views)
    ensures controller.memoryInflight == old(controller.memoryInflight)
    ensures ReviewHolds(controller) && ViewsKnown(controller)
    ensures !answer.NotYet? ==> !controller.active.Preparing? && !controller.active.Executing?
    ensures answer.NotYet? && old(Working(controller.active)) ==> controller.active == old(controller.active)
    ensures
      old(Shows(controller, answer)) && DialogShows(controller.app, old(controller.active).capture, answer.token) ==>
      controller.active == Active.Ready(old(controller.active).capture, answer.token)
    ensures old(Keeps(controller, answer)) ==>
      controller.persistence == Some(Persistence(old(controller.active).capture, answer.reference.value, answer.rows,
                                                 None, None))
    ensures old(controller.active).Executing? && !old(Keeps(controller, answer)) ==> controller.persistence.None?
    ensures old(!controller.Busy()) ==>
      TakesRestore(old(controller.Following()), old(controller.presentation.configured), controller.Following(),
                   Views(controller.app.views), controller.active, decodes)
  {
    PollWorker(controller, answer);
    controller.ReconcileReady();
    FollowOn(controller, decodes);
  }

  /**
   * One tick: the worker is looked at, a review that no longer holds is dropped, the views are followed, and a
   * save that nothing holds back is sent.
   */
  method OneTick(controller: CommandController, answer: Answer, decodes: bool, accepted: bool, sourceKnown: bool)
    requires controller.Valid()
    modifies controller, controller.presentation
    ensures controller.Valid() && old(controller.log) <= controller.log
    ensures controller.app.views == old(controller.app.views)
    ensures ReviewHolds(controller) && ViewsKnown(controller)
    ensures !answer.NotYet? ==> !controller.active.Preparing? && !controller.active.Executing?
    ensures answer.NotYet? && old(Working(controller.active)) ==> controller.active == old(controller.active)
    ensures controller.persistence.Some? && controller.persistence.value.sequence.None? ==>
      !accepted || exists s :: s in controller.memoryInflight
                         && controller.memoryInflight[s] == controller.persistence.value.capture.view
    ensures old(!controller.Busy()) ==>
      TakesRestore(old(controller.Following()), old(controller.presentation.configured), controller.Following(),
                   Views(controller.app.views), controller.active, decodes)
  {
    PollAndFollow(controller, answer, decodes);
    controller.DispatchPersistence(accepted, sourceKnown);
  }

  /** A new reference of a step, which a save that the store acknowledged has just attached. */
  ghost predicate AttachedTo(key: Key, reference: Option<string>, log: seq<Entry>, log': seq<Entry>) {
    exists capture: Capture ::
      KeyOf(capture) == key && reference.Some? && log' == log + [Attached(capture, reference.value)]
  }

  /** What one input does to the references: the user's edits aside, only an acknowledged save changes one. */
  ghost predicate LastGoodKept(before: App, input: Input, after: App, log: seq<Entry>, log': seq<Entry>) {
    && log <= log'
    && (input.Edited? ==> after == input.app && log' == log)
    && (!input.Edited? && !(input.Memory? && input.event.Saved?) ==> after.views == before.views)
    && (input.Memory? && !input.event.Saved? ==> log' == log)
    && (!input.Edited? ==>
          forall key :: PublicationOf(after, key) != PublicationOf(before, key) ==>
            AttachedTo(key, PublicationOf(after, key), log, log'))
  }

  lemma CommitTouchesOneStep(app: App, capture: Capture, reference: string, key: Key)
    ensures PublicationOf(CommitPublication(app, capture, reference), key)
         == if Attachable(app, capture) && key == KeyOf(capture) then Some(reference) else PublicationOf(app, key)
  {
  }

  lemma CommitKeepsLastGood(before: App, capture: Capture, reference: string, after: App, input: Input,
        log: seq<Entry>, log': seq<Entry>)
    requires after.views == CommitPublication(before, capture, reference).views
    requires log' == log + [Attached(capture, reference)] && input.Memory? && input.event.Saved?
    ensures LastGoodKept(before, input, after, log, log')
  {
    forall key | PublicationOf(after, key) != PublicationOf(before, key)
      ensures AttachedTo(key, PublicationOf(after, key), log, log')
    {
      CommitTouchesOneStep(before, capture, reference, key);
    }
  }

  /** An acknowledgement or a failure of the store. */
  method HearMemory(controller: CommandController, input: Input)
    requires controller.Valid() && input.Memory?
    modifies controller, controller.presentation
    ensures controller.Valid() && controller.Hears(input.event)
    ensures LastGoodKept(old(controller.app), input, controller.app, old(controller.log), controller.log)
  {
    ghost var app, pending, log := controller.app, controller.persistence, controller.log;
    controller.HandleMemoryEvent(input.event);
    if pending.Some? {
      var capture := pending.value.capture;
      ViewsStay(app, capture.generation, capture.view, capture.revision);
      ViewsStay(CommitPublication(app, capture, pending.value.reference), capture.generation, capture.view,
                capture.revision);
    }
    if Commits(app, pending, input.event) {
      CommitKeepsLastGood(app, pending.value.capture, pending.value.reference, controller.app, input, log,
                          controller.log);
    }
  }

  method Handle(controller: CommandController, input: Input)
    requires controller.Valid()
    modifies controller, controller.presentation
    ensures controller.Valid()
    ensures LastGoodKept(old(controller.app), input, controller.app, old(controller.log), controller.log)
    ensures input.AskCancel? ==> controller.Cancels(input.generation, input.view)
    ensures input.AskPrepare? ==>
      controller.Prepares(input.generation, input.view, input.revision, input.stage, input.freezes)
    ensures input.AskExecute? ==>
      controller.Starts(input.generation, input.view, input.revision, input.stage, input.token)
    ensures input.Memory? ==> controller.Hears(input.event)
    ensures input.Tick? ==> ReviewHolds(controller) && ViewsKnown(controller)
  {
    match input
    case AskCancel(generation, view) => controller.Cancel(generation, view);
    case AskPrepare(generation, view, revision, stage, freezes) =>
      controller.PrepareRun(generation, view, revision, stage, freezes);
    case AskExecute(generation, view, revision, stage, token) =>
      controller.Execute(generation, view, revision, stage, token);
    case Tick(answer, decodes, accepted, sourceKnown) => OneTick(controller, answer, decodes, accepted, sourceKnown);
    case Memory(_) => HearMemory(controller, input);
    case Edited(app, newSaves, inflight) =>
      controller.Environment(app, controller.memorySequence + newSaves, inflight);
    case Abandon =>
      if controller.persistence.Some? {
        controller.FailPersistence();
      }
  }

  /**
   * Every reachable state: bounded publications, a log in which every save was reviewed, and no operation
   * beside a pending save. At every input a step keeps its last good reference, unless the user edits or
   * a save is acknowledged and attaches a new one.
   */
  method Run(uuid: seq<Byte> -> string, app: App, inputs: seq<Input>)
    returns (publications: Publications, exclusive: bool, apps: seq<App>, ghost logs: seq<seq<Entry>>)
    ensures WithinLimits(publications) && exclusive
    ensures |apps| == |logs| == |inputs| + 1 && apps[0] == app && logs[0] == []
    ensures LogSound(uuid, logs[|inputs|])
    ensures forall i {:trigger inputs[i]} :: 0 <= i < |inputs| ==>
      LastGoodKept(apps[i], inputs[i], apps[i + 1], logs[i], logs[i + 1])
  {
    var controller := new CommandController(uuid, app);
    apps, logs := [app], [[]];
    for n := 0 to |inputs|
      invariant fresh(controller) && fresh(controller.presentation) && controller.Valid()
      invariant controller.uuid == uuid
      invariant |apps| == |logs| == n + 1 && apps[0] == app && logs[0] == []
      invariant apps[n] == controller.app && logs[n] == controller.log
      invariant forall i {:trigger inputs[i]} :: 0 <= i < n ==>
                  LastGoodKept(apps[i], inputs[i], apps[i + 1], logs[i], logs[i + 1])
    {
      Handle(controller, inputs[n]);
      apps, logs := apps + [controller.app], logs + [controller.log];
    }
    publications := controller.presentation.publications;
    exclusive := controller.active.Idle? || controller.persistence.None?;
  }

  /** Inputs, the states between them and the log at each. */
  ghost predicate Runs(inputs: seq<Input>, apps: seq<App>, logs: seq<seq<Entry>>) {
    && |apps| == |logs| == |inputs| + 1
    && forall i {:trigger inputs[i]} :: 0 <= i < |inputs| ==>
         LastGoodKept(apps[i], inputs[i], apps[i + 1], logs[i], logs[i + 1])
  }

  ghost predicate AttachedSince(key: Key, reference: Option<string>, log: seq<Entry>, log': seq<Entry>) {
    && log <= log' && reference.Some?
    && exists capture: Capture :: KeyOf(capture) == key && Attached(capture, reference.value) in log'[|log|..]
  }

  /** However long the user does not edit: the reference is the one of the start, or an attached save's. */
  lemma {:induction false} ReferenceIsLastGood(inputs: seq<Input>, apps: seq<App>, logs: seq<seq<Entry>>,
        i: nat, j: nat,
        key: Key)
    requires Runs(inputs, apps, logs) && i <= j <= |inputs|
    requires forall k :: i <= k < j ==> !inputs[k].Edited?
    ensures logs[i] <= logs[j]
    ensures PublicationOf(apps[j], key) == PublicationOf(apps[i], key)
         || AttachedSince(key, PublicationOf(apps[j], key), logs[i], logs[j])
    decreases j
  {
    if i < j {
      ReferenceIsLastGood(inputs, apps, logs, i, j - 1, key);
      assert LastGoodKept(apps[j - 1], inputs[j - 1], apps[j], logs[j - 1], logs[j]);
      var reference := PublicationOf(apps[j], key);
      if reference != PublicationOf(apps[j - 1], key) {
        var capture: Capture :| KeyOf(capture) == key && logs[j] == logs[j - 1] + [Attached(capture, reference.value)];
        assert logs[j][|logs[j - 1]|] == Attached(capture, reference.value);
        assert Attached(capture, reference.value) in logs[j][|logs[i]|..];
      } else if AttachedSince(key, reference, logs[i], logs[j - 1]) {
        var capture: Capture :| KeyOf(capture) == key && Attached(capture, reference.value) in logs[j - 1][|logs[i]|..];
        assert logs[j][|logs[i]|..|logs[j - 1]|] == logs[j - 1][|logs[i]|..];
        assert Attached(capture, reference.value) in logs[j][|logs[i]|..];
      }
    }
  }

  // --- a publication without a step ---------------------------------------------------------------------------

  const VIEW: View := "view"

  /** One view with one command step, whose run the dialog is at. */
  function WithStep(step: Definition, runState: RunState): App {
    App(map[VIEW := ViewState([step], map[step.id := CommandApp.Run(1, None)], false)],
        Some(Dialog(0, VIEW, step.id, 1, runState, None)), map[0 := PendingRun(VIEW, step.id, 1)])
  }

  /** The step has left the chain, and its run state with it. */
  const WITHOUT_STEP := App(map[VIEW := ViewState([], map[], false)], None, map[])

  function CaptureFor(uuid: seq<Byte> -> string, step: Definition): Capture {
    Capture(0, VIEW, step.id, 1, Fingerprint(uuid, []))
  }

  lemma FenceHolds(uuid: seq<Byte> -> string, step: Definition, runState: RunState)
    requires step.command.Some?
    ensures Preparable(WithStep(step, runState), VIEW, 1, step.id)
    ensures CaptureOf(uuid, WithStep(step, runState), 0, VIEW, 1, step.id) == CaptureFor(uuid, step)
    ensures CommandFence(uuid, WithStep(step, runState), CaptureFor(uuid, step))
    ensures Attachable(WithStep(step, runState), CaptureFor(uuid, step))
  {
    assert [step][..0] == [];
  }

  lemma NothingFits(key: Key)
    ensures CanPublish(map[], key, [])
  {
    var none: Publications := map[];
    assert none - {key} == none;
  }

  /** A run up to the frozen input on show. */
  method Review(uuid: seq<Byte> -> string, step: Definition) returns (controller: CommandController)
    requires step.command.Some?
    ensures fresh(controller) && fresh(controller.presentation) && controller.Valid() && controller.uuid == uuid
    ensures controller.active == Active.Ready(CaptureFor(uuid, step), "token") && controller.persistence.None?
    ensures controller.memorySequence == 0 && controller.presentation.publications == map[]
  {
    FenceHolds(uuid, step, RunState.Preparing);
    controller := new CommandController(uuid, WithStep(step, RunState.Preparing));
    controller.PrepareRun(0, VIEW, 1, step.id, true);
    controller.PollPreparing(PreparedInput("token"));
  }

  /** The confirmed run, under way. */
  method Confirm(uuid: seq<Byte> -> string, step: Definition) returns (controller: CommandController)
    requires step.command.Some?
    ensures fresh(controller) && fresh(controller.presentation) && controller.Valid() && controller.uuid == uuid
    ensures controller.active == Executing(CaptureFor(uuid, step), false) && controller.persistence.None?
    ensures controller.memorySequence == 0 && controller.presentation.publications == map[]
    ensures controller.app == WithStep(step, RunState.Running)
  {
    FenceHolds(uuid, step, RunState.Running);
    controller := Review(uuid, step);
    controller.Environment(WithStep(step, RunState.Running), 0, map[]);
    controller.Execute(0, VIEW, 1, step.id, "token");
  }

  /** Its results, waiting to be saved. */
  method QueueSave(uuid: seq<Byte> -> string, step: Definition) returns (controller: CommandController)
    requires step.command.Some?
    ensures fresh(controller) && fresh(controller.presentation) && controller.Valid() && controller.uuid == uuid
    ensures controller.persistence == Some(Persistence(CaptureFor(uuid, step), "saved", [], None, None))
    ensures controller.memorySequence == 0 && controller.memoryInflight == map[]
    ensures controller.app == WithStep(step, RunState.Running)
  {
    FenceHolds(uuid, step, RunState.Running);
    NothingFits(Key(VIEW, step.id));
    controller := Confirm(uuid, step);
    controller.Environment(WithStep(step, RunState.Running), 0, map[]);
    controller.PollExecuting(Executed([], Some("saved")));
  }

  /** The save is sent to the store. */
  method SendSave(uuid: seq<Byte> -> string, step: Definition) returns (controller: CommandController)
    requires step.command.Some?
    ensures fresh(controller) && fresh(controller.presentation) && controller.Valid()
    ensures controller.persistence == Some(Persistence(CaptureFor(uuid, step), "saved", [], Some(1), Some(1)))
    ensures controller.memorySequence == 1
  {
    FenceHolds(uuid, step, RunState.Running);
    controller := QueueSave(uuid, step);
    controller.DispatchPersistence(true, true);
  }

  /** The step was away, was back when the save was acknowledged, and is away again. */
  method ComeAndGone(uuid: seq<Byte> -> string, step: Definition) returns (controller: CommandController)
    requires step.command.Some?
    ensures fresh(controller) && fresh(controller.presentation) && controller.Valid()
    ensures controller.app == WITHOUT_STEP && controller.presentation.configured == StepsOf(WITHOUT_STEP)
    ensures Key(VIEW, step.id) in controller.presentation.publications
  {
    FenceHolds(uuid, step, RunState.Unrun);
    controller := SendSave(uuid, step);
    controller.Environment(WITHOUT_STEP, 1, map[]);
    ghost var queued := controller.SyncRestores(true);
    controller.Environment(WithStep(step, RunState.Unrun), 1, map[]);
    controller.HandleMemoryEvent(Saved(1));
    controller.Environment(WITHOUT_STEP, 1, map[]);
  }

  /**
   * The step leaves its chain while the save is in flight, is back for just as long as it takes the acknowledgement
   * to come, and leaves again: its publication is shown, and following the views does not drop it, because to it
   * the chains have not changed.
   */
  method DepartedStepStays(uuid: seq<Byte> -> string, step: Definition) returns (shown: bool)
    requires step.command.Some?
    ensures shown
  {
    var controller := ComeAndGone(uuid, step);
    ghost var queued := controller.SyncRestores(true);
    shown := Key(VIEW, step.id) in controller.presentation.publications;
  }
}
