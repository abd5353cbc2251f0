/**
 * What the command controller sees of the application: each view's enrichment chain and command
 * runs, and the command dialog. Then the fences it checks against them, and the log of what it did.
 */
module CommandApp {
  import opened Prelude
  import opened PrefixEncoding
  import opened Presentation

  /** A command step's definition revision and the reference of its last good publication. */
  datatype Run = Run(revision: nat, publication: Option<string>)

  datatype ViewState = ViewState(chain: seq<Definition>, runs: map<Stage, Run>, pendingQuery: bool)

  datatype RunState = Unrun | Saving | Preparing | Ready | Running | SavingResults | Complete | Error

  datatype Dialog = Dialog(
    generation: nat, view: View, stage: Stage, revision: nat, runState: RunState, token: Option<string>)

  datatype PendingRun = PendingRun(view: View, stage: Stage, revision: nat)

  datatype App = App(views: map<View, ViewState>, dialog: Option<Dialog>, pendingRuns: map<nat, PendingRun>)

  /** What identifies a run's input: fixed when the input is frozen. */
  datatype Capture = Capture(generation: nat, view: View, stage: Stage, revision: nat, fingerprint: string)

  // --- the dialog's half ----------------------------------------------------------------------

  predicate Reviewing(app: App, generation: nat, view: View, revision: nat) {
    app.dialog.Some? && app.dialog.value.generation == generation && app.dialog.value.view == view
    && app.dialog.value.revision == revision && app.dialog.value.runState.Preparing?
  }

  /** The review is shown, or its error is. */
  function FinishReview(app: App, generation: nat, view: View, revision: nat, token: Option<string>): App {
    if !Reviewing(app, generation, view, revision) then app
    else app.(dialog := Some(
      if token.Some? then app.dialog.value.(token := token, runState := Ready)
      else app.dialog.value.(runState := Error)))
  }

  predicate Finishing(app: App, generation: nat, view: View, revision: nat) {
    generation in app.pendingRuns && app.pendingRuns[generation].view == view
    && app.pendingRuns[generation].revision == revision
  }

  function FinishRun(app: App, generation: nat, view: View, revision: nat, ok: bool): App {
    if !Finishing(app, generation, view, revision) then app
    else
      var stage := app.pendingRuns[generation].stage;
      var next := app.(pendingRuns := app.pendingRuns - {generation});
      if !(view in app.views && stage in app.views[view].runs && app.views[view].runs[stage].revision == revision)
      then next
      else if app.dialog.Some? && app.dialog.value.generation == generation && app.dialog.value.view == view
           && app.dialog.value.revision == revision
           && (app.dialog.value.runState.Running? || app.dialog.value.runState.SavingResults?) then
        next.(dialog := Some(app.dialog.value.(token := None, runState := if ok then Complete else Error)))
      else next
  }

  /** The dialog that shows this run, running or saving its results. */
  predicate ShowsRun(app: App, generation: nat, view: View, revision: nat) {
    app.dialog.Some? && app.dialog.value.generation == generation && app.dialog.value.view == view
    && app.dialog.value.revision == revision
    && (app.dialog.value.runState.Running? || app.dialog.value.runState.SavingResults?)
  }

  /** The run is of the definition its step still has. */
  predicate StillDefined(app: App, view: View, stage: Stage, revision: nat) {
    view in app.views && stage in app.views[view].runs && app.views[view].runs[stage].revision == revision
  }

  /**
   * Finishing a run ends its pending entry and no other, never touches a view, and tells the dialog that shows it
   * whether it went well; any other dialog stays as it is.
   */
  lemma RunFinishes(app: App, generation: nat, view: View, revision: nat, ok: bool)
    ensures var next := FinishRun(app, generation, view, revision, ok);
      var pending := generation in app.pendingRuns && app.pendingRuns[generation].view == view
                     && app.pendingRuns[generation].revision == revision;
      && next.views == app.views
      && (forall g :: g in next.pendingRuns <==> g in app.pendingRuns && !(pending && g == generation))
      && (forall g :: g in next.pendingRuns ==> next.pendingRuns[g] == app.pendingRuns[g])
      && (if pending && StillDefined(app, view, app.pendingRuns[generation].stage, revision)
            && ShowsRun(app, generation, view, revision)
          then next.dialog.Some? && next.dialog.value.runState == (if ok then Complete else Error)
               && next.dialog.value.token.None?
               && next.dialog.value.(runState := Running, token := None)
                  == app.dialog.value.(runState := Running, token := None)
          else next.dialog == app.dialog)
  {
  }

  /** A review is shown or refused in the dialog that prepares it, and nowhere else. */
  lemma ReviewFinishes(app: App, generation: nat, view: View, revision: nat, token: Option<string>)
    ensures var next := FinishReview(app, generation, view, revision, token);
      && next.views == app.views && next.pendingRuns == app.pendingRuns
      && (if app.dialog.Some? && app.dialog.value.generation == generation && app.dialog.value.view == view
            && app.dialog.value.revision == revision && app.dialog.value.runState.Preparing?
          then next.dialog.Some? && next.dialog.value.runState == (if token.Some? then Ready else Error)
               && (token.Some? ==> next.dialog.value.token == token)
               && (token.None? ==> next.dialog.value.token == app.dialog.value.token)
               && next.dialog.value.(runState := Preparing, token := None)
                  == app.dialog.value.(runState := Preparing, token := None)
          else next.dialog == app.dialog)
  {
  }

  /** What happens to a run or its review never touches a view. */
  lemma ViewsStay(app: App, generation: nat, view: View, revision: nat)
    ensures forall ok :: FinishRun(app, generation, view, revision, ok).views == app.views
    ensures forall token :: FinishReview(app, generation, view, revision, token).views == app.views
    ensures BeginResultSave(app, generation, view, revision).views == app.views
  {
  }

  function BeginResultSave(app: App, generation: nat, view: View, revision: nat): App {
    if Finishing(app, generation, view, revision) && app.dialog.Some? && app.dialog.value.generation == generation
      && app.dialog.value.view == view && app.dialog.value.revision == revision && app.dialog.value.runState.Running?
    then app.(dialog := Some(app.dialog.value.(runState := SavingResults)))
    else app
  }

  predicate DialogRunning(app: App, capture: Capture) {
    app.dialog.Some? && app.dialog.value.generation == capture.generation && app.dialog.value.view == capture.view
    && app.dialog.value.stage == capture.stage && app.dialog.value.revision == capture.revision
    && app.dialog.value.runState.Running?
  }

  predicate DialogShows(app: App, capture: Capture, token: string) {
    app.dialog.Some? && app.dialog.value.generation == capture.generation && app.dialog.value.view == capture.view
    && app.dialog.value.stage == capture.stage && app.dialog.value.revision == capture.revision
    && app.dialog.value.runState.Ready? && app.dialog.value.token == Some(token)
  }

  // --- publication references --------------------------------------------------------------------

  function WithPublication(state: ViewState, stage: Stage, reference: string): ViewState
    requires stage in state.runs
  {
    state.(runs := state.runs[stage := state.runs[stage].(publication := Some(reference))])
  }

  /** The view may take the reference: the step is in its chain at the expected revision. */
  predicate Attachable(app: App, capture: Capture) {
    && capture.view in app.views
    && ChainPrefix(app.views[capture.view].chain, capture.stage).Some?
    && capture.stage in app.views[capture.view].runs
    && app.views[capture.view].runs[capture.stage].revision == capture.revision
  }

  /** The run of a capture is over, well or not. */
  function Finished(app: App, capture: Capture, ok: bool): App {
    FinishRun(app, capture.generation, capture.view, capture.revision, ok)
  }

  function CommitPublication(app: App, capture: Capture, reference: string): App {
    if Attachable(app, capture) then
      app.(views := app.views[capture.view := WithPublication(app.views[capture.view], capture.stage, reference)])
    else app
  }

  function PublicationOf(app: App, key: Key): Option<string> {
    if key.view in app.views && key.stage in app.views[key.view].runs
    then app.views[key.view].runs[key.stage].publication else None
  }

  // --- fences ------------------------------------------------------------------------------------

  /** The steps before the command step `stage`: what the command reads. */
  function ChainPrefix(chain: seq<Definition>, stage: Stage): Option<seq<Definition>> {
    var at := CommandAt(chain, stage);
    if at < |chain| then Some(chain[..at]) else None
  }

  function CommandAt(chain: seq<Definition>, stage: Stage): (at: nat)
    ensures at <= |chain|
    ensures at < |chain| ==> chain[at].id == stage && chain[at].command.Some?
  {
    if chain == [] then 0
    else if chain[0].id == stage && chain[0].command.Some? then 0
    else 1 + CommandAt(chain[1..], stage)
  }

  function Fingerprint(uuid: seq<Byte> -> string, prefix: seq<Definition>): string {
    uuid(PrefixBytes(prefix))
  }

  /** The step still has the captured revision and still reads the captured prefix. */
  predicate FenceOn(uuid: seq<Byte> -> string, state: ViewState, capture: Capture) {
    && capture.stage in state.runs && state.runs[capture.stage].revision == capture.revision
    && ChainPrefix(state.chain, capture.stage).Some?
    && Fingerprint(uuid, ChainPrefix(state.chain, capture.stage).value) == capture.fingerprint
  }

  predicate CommandFence(uuid: seq<Byte> -> string, app: App, capture: Capture) {
    capture.view in app.views && FenceOn(uuid, app.views[capture.view], capture)
  }

  ghost predicate Collide(uuid: seq<Byte> -> string, a: seq<Byte>, b: seq<Byte>) {
    a != b && uuid(a) == uuid(b)
  }

  // --- the log --------------------------------------------------------------------------------------

  datatype Entry =
    | Frozen(capture: Capture, prefix: seq<Definition>)
    | Presented(capture: Capture, token: string)
    | Started(capture: Capture, token: string)
    | Dispatched(capture: Capture, base: ViewState, saved: ViewState, reference: string)
    | Attached(capture: Capture, reference: string)

  ghost predicate FrozenIn(log: seq<Entry>, capture: Capture) {
    exists i :: 0 <= i < |log| && log[i].Frozen? && log[i].capture == capture
  }

  ghost predicate PresentedIn(log: seq<Entry>, capture: Capture, token: string) {
    Presented(capture, token) in log
  }

  ghost predicate StartedIn(log: seq<Entry>, capture: Capture) {
    exists i :: 0 <= i < |log| && log[i].Started? && log[i].capture == capture
  }

  ghost predicate DispatchedIn(log: seq<Entry>, capture: Capture, reference: string) {
    exists i :: 0 <= i < |log| && log[i].Dispatched? && log[i].capture == capture && log[i].reference == reference
  }

  /** What each entry presupposes of the entries before it and of the application at the time. */
  ghost predicate EntrySound(uuid: seq<Byte> -> string, before: seq<Entry>, entry: Entry) {
    match entry
    case Frozen(capture, prefix) => capture.fingerprint == Fingerprint(uuid, prefix)
    case Presented(capture, token) => FrozenIn(before, capture)
    case Started(capture, token) => PresentedIn(before, capture, token)
    case Dispatched(capture, base, saved, reference) =>
      && StartedIn(before, capture)
      && FenceOn(uuid, base, capture) && saved == WithPublication(base, capture.stage, reference)
    case Attached(capture, reference) => DispatchedIn(before, capture, reference)
  }

  ghost predicate LogSound(uuid: seq<Byte> -> string, log: seq<Entry>) {
    forall i :: 0 <= i < |log| ==> EntrySound(uuid, log[..i], log[i])
  }

  lemma LogAppend(uuid: seq<Byte> -> string, log: seq<Entry>, entry: Entry)
    requires LogSound(uuid, log) && EntrySound(uuid, log, entry)
    ensures LogSound(uuid, log + [entry])
    ensures forall c :: FrozenIn(log, c) || (entry.Frozen? && entry.capture == c) ==> FrozenIn(log + [entry], c)
    ensures forall c :: StartedIn(log, c) || (entry.Started? && entry.capture == c) ==> StartedIn(log + [entry], c)
    ensures forall c, t :: PresentedIn(log, c, t) || entry == Presented(c, t) ==> PresentedIn(log + [entry], c, t)
    ensures forall c, r :: DispatchedIn(log, c, r) ==> DispatchedIn(log + [entry], c, r)
    ensures entry.Dispatched? ==> DispatchedIn(log + [entry], entry.capture, entry.reference)
  {
    var next := log + [entry];
    forall i | 0 <= i < |next| ensures EntrySound(uuid, next[..i], next[i]) {
      assert next[..i] == log[..i];
    }
    assert next[|log|] == entry;
    forall c | FrozenIn(log, c) ensures FrozenIn(next, c) {
      var i :| 0 <= i < |log| && log[i].Frozen? && log[i].capture == c;
      assert next[i] == log[i];
    }
    forall c | StartedIn(log, c) ensures StartedIn(next, c) {
      var i :| 0 <= i < |log| && log[i].Started? && log[i].capture == c;
      assert next[i] == log[i];
    }
    forall c, r | DispatchedIn(log, c, r) ensures DispatchedIn(next, c, r) {
      var i :| 0 <= i < |log| && log[i].Dispatched? && log[i].capture == c && log[i].reference == r;
      assert next[i] == log[i];
    }
  }

  /** A dispatched save was frozen, presented under a token, and started with that token, in this order. */
  lemma DispatchedWasReviewed(uuid: seq<Byte> -> string, log: seq<Entry>, d: nat)
    returns (frozen: nat, presented: nat, started: nat)
    requires LogSound(uuid, log) && d < |log| && log[d].Dispatched?
    ensures frozen < presented < started < d
    ensures log[frozen].Frozen? && log[presented].Presented? && log[started].Started?
    ensures log[frozen].capture == log[presented].capture == log[started].capture == log[d].capture
    ensures log[presented].token == log[started].token
    ensures log[frozen].capture.fingerprint == Fingerprint(uuid, log[frozen].prefix)
  {
    var capture := log[d].capture;
    assert EntrySound(uuid, log[..d], log[d]);
    started :| 0 <= started < d && log[..d][started].Started? && log[..d][started].capture == capture;
    assert EntrySound(uuid, log[..started], log[started]);
    presented :| 0 <= presented < started && log[..started][presented] == Presented(capture, log[started].token);
    assert EntrySound(uuid, log[..presented], log[presented]);
    frozen :|
      0 <= frozen < presented && log[..presented][frozen].Frozen? && log[..presented][frozen].capture == capture;
    assert EntrySound(uuid, log[..frozen], log[frozen]);
  }

  /**
   * The chain a dispatched save was computed from is the chain it is saved next to, step by step,
   * unless the name-based UUID of two different encodings collides.
   */
  lemma DispatchedPrefixIsFrozen(uuid: seq<Byte> -> string, log: seq<Entry>, d: nat) returns (frozen: nat)
    requires LogSound(uuid, log) && d < |log| && log[d].Dispatched?
    requires forall i :: 0 <= i < |log| && log[i].Frozen? ==> ShortTriples(log[i].prefix)
    requires ShortTriples(log[d].base.chain)
    ensures frozen < d && log[frozen].Frozen? && log[frozen].capture == log[d].capture
    ensures ChainPrefix(log[d].base.chain, log[d].capture.stage).Some?
    ensures var now := ChainPrefix(log[d].base.chain, log[d].capture.stage).value;
      SameTriples(log[frozen].prefix, now) || Collide(uuid, PrefixBytes(log[frozen].prefix), PrefixBytes(now))
  {
    var presented, started;
    frozen, presented, started := DispatchedWasReviewed(uuid, log, d);
    assert EntrySound(uuid, log[..d], log[d]);
    PrefixBytesInjective(log[frozen].prefix, ChainPrefix(log[d].base.chain, log[d].capture.stage).value);
  }
}
