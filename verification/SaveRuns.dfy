/**
 * Whole runs of the durable save worker: which commands a step consumes, what it makes
 * durable, what it answers, and in which order. A log records writes and answers, so
 * that "acknowledged only after a commit" is a statement about log positions.
 */
module SaveRuns {
  import opened Prelude
  import opened SaveGroups

  /**
   * `Wrote` is one item of a save transaction with the store's outcome, no failure meaning
   * that it committed. `Answered` is the run of acknowledgements one group receives, in
   * the order sent: Saved for each key, or SaveFailed for each with the one shared cause.
   */
  datatype Entry =
    | Wrote(request: SaveRequest, failure: Option<Failure>)
    | Answered(keys: seq<Key>, verdict: Option<Failure>)
    | RecipeSettled(failure: Option<Failure>)
    | FlushReplied(reply: Option<Failure>)

  /**
   * `Recipe` stands for a recipe save or import together with the store's verdict on it;
   * `Query` for every command that touches neither view rows nor failure tracking.
   */
  datatype Command =
    | Save(request: SaveRequest)
    | Recipe(failure: Option<Failure>)
    | Query(tag: nat)
    | Flush
    | Stop

  datatype Worker = Worker(
    newest: map<ViewId, nat>,
    failed: map<ViewId, Failure>,
    durable: map<ViewId, SaveRequest>,
    recipeFailure: Option<Failure>,
    stopped: bool,
    log: seq<Entry>)

  const INITIAL := Worker(map[], map[], map[], None, false, [])

  function Lookup<T>(m: map<ViewId, T>, v: ViewId): Option<T> {
    if v in m then Some(m[v]) else None
  }

  function View(w: Worker, v: ViewId): ViewState {
    ViewState(Lookup(w.newest, v), Lookup(w.failed, v), Lookup(w.durable, v))
  }

  /** The saves of view `v` among the first `n` requests of a batch, in queue order. */
  function GroupUpTo(batch: seq<SaveRequest>, n: nat, v: ViewId): seq<SaveRequest>
    requires n <= |batch|
  {
    if n == 0 then []
    else if batch[n - 1].view == v then GroupUpTo(batch, n - 1, v) + [batch[n - 1]]
    else GroupUpTo(batch, n - 1, v)
  }

  lemma {:induction false} GroupMembers(batch: seq<SaveRequest>, n: nat, v: ViewId)
    requires n <= |batch|
    ensures forall r :: r in GroupUpTo(batch, n, v) <==> r in batch[..n] && r.view == v
  {
    if n > 0 {
      GroupMembers(batch, n - 1, v);
      assert batch[..n] == batch[..n - 1] + [batch[n - 1]];
    }
  }

  function Group(batch: seq<SaveRequest>, v: ViewId): seq<SaveRequest> {
    GroupUpTo(batch, |batch|, v)
  }

  // --- the answers a group receives -------------------------------------------------

  function InsertKey(k: Key, s: seq<Key>): (t: seq<Key>)
    ensures multiset(t) == multiset(s) + multiset{k}
  {
    if s == [] || k.sequence < s[0].sequence then [k] + s
    else
      assert s == [s[0]] + s[1..];
      [s[0]] + InsertKey(k, s[1..])
  }

  /** A stable sort by ascending sequence. */
  function SortKeys(s: seq<Key>): (t: seq<Key>)
    ensures multiset(t) == multiset(s)
  {
    if s == [] then []
    else
      SplitLast(s);
      InsertKey(s[|s| - 1], SortKeys(s[..|s| - 1]))
  }

  ghost predicate AscendingKeys(s: seq<Key>) {
    forall i, j :: 0 <= i < j < |s| ==> s[i].sequence <= s[j].sequence
  }

  /** The keys with one sequence, in order. */
  function WithSequence(s: seq<Key>, n: nat): seq<Key> {
    if s == [] then []
    else WithSequence(s[..|s| - 1], n) + if s[|s| - 1].sequence == n then [s[|s| - 1]] else []
  }

  lemma {:induction false} WithSequenceConcat(a: seq<Key>, b: seq<Key>, n: nat)
    ensures WithSequence(a + b, n) == WithSequence(a, n) + WithSequence(b, n)
  {
    if b == [] {
      assert a + b == a;
    } else {
      WithSequenceConcat(a, b[..|b| - 1], n);
      assert (a + b)[..|a + b| - 1] == a + b[..|b| - 1];
    }
  }

  lemma {:induction false} NoneWithSequence(s: seq<Key>, n: nat)
    requires forall i :: 0 <= i < |s| ==> s[i].sequence != n
    ensures WithSequence(s, n) == []
  {
    if s != [] {
      NoneWithSequence(s[..|s| - 1], n);
    }
  }

  lemma {:induction false} InsertAscending(k: Key, s: seq<Key>)
    requires AscendingKeys(s)
    ensures AscendingKeys(InsertKey(k, s))
  {
    if s != [] && k.sequence >= s[0].sequence {
      var t := InsertKey(k, s[1..]);
      InsertAscending(k, s[1..]);
      forall i | 0 <= i < |t| ensures s[0].sequence <= t[i].sequence {
        assert t[i] in multiset(t);
        assert t[i] in multiset(s[1..]) || t[i] == k;
      }
    }
  }

  /** A key goes behind its equals. */
  lemma {:induction false} InsertIsStable(k: Key, s: seq<Key>, n: nat)
    requires AscendingKeys(s)
    ensures WithSequence(InsertKey(k, s), n) == WithSequence(s + [k], n)
  {
    WithSequenceConcat(s, [k], n);
    if s == [] || k.sequence < s[0].sequence {
      WithSequenceConcat([k], s, n);
      if k.sequence == n {
        NoneWithSequence(s, n);
      }
    } else {
      var rest := s[1..];
      InsertIsStable(k, rest, n);
      WithSequenceConcat([s[0]], InsertKey(k, rest), n);
      WithSequenceConcat(rest, [k], n);
      assert s == [s[0]] + rest;
      WithSequenceConcat([s[0]], rest, n);
      Reassociate(WithSequence([s[0]], n), WithSequence(rest, n), WithSequence([k], n));
    }
  }

  /** Withheld keys are answered in ascending order, those of one sequence as they were queued. */
  lemma {:induction false} SortIsStable(s: seq<Key>, n: nat)
    ensures AscendingKeys(SortKeys(s)) && WithSequence(SortKeys(s), n) == WithSequence(s, n)
  {
    if s != [] {
      var front, last := s[..|s| - 1], s[|s| - 1];
      SplitLast(s);
      SortIsStable(front, n);
      InsertAscending(last, SortKeys(front));
      InsertIsStable(last, SortKeys(front), n);
      WithSequenceConcat(SortKeys(front), [last], n);
      WithSequenceConcat(front, [last], n);
    }
  }

  /** The keys a group is answered with: withheld ones ascending, then the latest. */
  function AnswerOrder(g: seq<SaveRequest>): seq<Key>
    requires g != []
  {
    var k := LatestIndex(g);
    SortKeys(KeysOf(g[..k] + g[k + 1..])) + [KeyOf(g[k])]
  }

  /** Why a group failed, if it did: its latest save is fresh and was refused. */
  function Verdict(vs: ViewState, g: seq<SaveRequest>, store: Store): Option<Failure>
    requires g != []
  {
    if Stale(vs, Latest(g)) then None else Rejection(Latest(g), store)
  }

  function GroupAnswer(w: Worker, batch: seq<SaveRequest>, store: Store, v: ViewId): Entry
    requires Group(batch, v) != []
  {
    var g := Group(batch, v);
    Answered(AnswerOrder(g), Verdict(View(w, v), g, store))
  }

  ghost predicate HaveGroups(batch: seq<SaveRequest>, views: seq<ViewId>) {
    forall i :: 0 <= i < |views| ==> Group(batch, views[i]) != []
  }

  ghost function AnswerViews(w: Worker, batch: seq<SaveRequest>, store: Store, views: seq<ViewId>): seq<Entry>
    requires HaveGroups(batch, views)
  {
    seq(|views|, i requires 0 <= i < |views| && HaveGroups(batch, views) => GroupAnswer(w, batch, store, views[i]))
  }

  function GroupWrite(batch: seq<SaveRequest>, store: Store, v: ViewId): Entry
    requires Group(batch, v) != []
  {
    var top := Latest(Group(batch, v));
    Wrote(top, Rejection(top, store))
  }

  /** One transaction over the latest saves of `views`. */
  ghost function WriteViews(batch: seq<SaveRequest>, store: Store, views: seq<ViewId>): seq<Entry>
    requires HaveGroups(batch, views)
  {
    seq(|views|, i requires 0 <= i < |views| && HaveGroups(batch, views) => GroupWrite(batch, store, views[i]))
  }

  // --- steps -------------------------------------------------------------------------

  /** Views answered without reaching the store: stale groups and malformed ones. */
  predicate Quiet(w: Worker, batch: seq<SaveRequest>, v: ViewId) {
    var g := Group(batch, v);
    g != [] && (Stale(View(w, v), Latest(g)) || Latest(g).malformed)
  }

  /** `quiet` then `written` lists every view of the batch once. */
  ghost predicate CoversBatch(batch: seq<SaveRequest>, views: seq<ViewId>) {
    && NoDuplicates(views) && HaveGroups(batch, views)
    && forall v: ViewId :: Group(batch, v) != [] ==> v in views
  }

  ghost predicate BatchNext(w: Worker, batch: seq<SaveRequest>, store: Store,
                            quiet: seq<ViewId>, written: seq<ViewId>, w': Worker) {
    && CoversBatch(batch, quiet + written) && HaveGroups(batch, quiet) && HaveGroups(batch, written)
    && (forall v :: v in quiet ==> Quiet(w, batch, v))
    && (forall v :: v in written ==> !Quiet(w, batch, v))
    && (forall v: ViewId :: View(w', v) == SaveGroup(View(w, v), Group(batch, v), store))
    && w'.recipeFailure == w.recipeFailure && !w'.stopped
    && w'.log == w.log + AnswerViews(w, batch, store, quiet)
                 + WriteViews(batch, store, written) + AnswerViews(w, batch, store, written)
  }

  /** What Flush may answer: any recorded failure, a plain refusal only when nothing worse is recorded. */
  ghost predicate FlushAnswer(w: Worker, reply: Option<Failure>) {
    if w.recipeFailure.Some? then reply == w.recipeFailure
    else if w.failed == map[] then reply.None?
    else
      && reply.Some? && reply.value in w.failed.Values
      && (reply.value.refusal ==> forall v :: v in w.failed ==> w.failed[v].refusal)
  }

  datatype Step =
    | SaveBatch(batch: seq<SaveRequest>, store: Store, quiet: seq<ViewId>, written: seq<ViewId>)
    | Serve(command: Command, reply: Option<Failure>)

  function Saves(batch: seq<SaveRequest>): seq<Command> {
    seq(|batch|, i requires 0 <= i < |batch| => Save(batch[i]))
  }

  /** The queue entries a step consumes. */
  function Consumed(step: Step): seq<Command> {
    match step
    case SaveBatch(batch, _, _, _) => Saves(batch)
    case Serve(command, _) => [command]
  }

  ghost predicate Next(w: Worker, step: Step, w': Worker) {
    !w.stopped &&
    match step
    case SaveBatch(batch, store, quiet, written) => BatchNext(w, batch, store, quiet, written, w')
    case Serve(Save(_), _) => false
    case Serve(Recipe(failure), _) =>
      w' == w.(recipeFailure := failure, log := w.log + [RecipeSettled(failure)])
    case Serve(Query(_), _) => w' == w
    case Serve(Flush, reply) => FlushAnswer(w, reply) && w' == w.(log := w.log + [FlushReplied(reply)])
    case Serve(Stop, _) => w' == w.(stopped := true)
  }

  ghost predicate Run(states: seq<Worker>, steps: seq<Step>) {
    && |states| == |steps| + 1
    && states[0] == INITIAL
    && forall i :: 0 <= i < |steps| ==> Next(states[i], steps[i], states[i + 1])
  }

  function Queue(steps: seq<Step>): seq<Command> {
    if steps == [] then [] else Queue(steps[..|steps| - 1]) + Consumed(steps[|steps| - 1])
  }

  /** The saves of one view in a queue. */
  function SavesOf(queue: seq<Command>, v: ViewId): seq<SaveRequest> {
    if queue == [] then []
    else
      var c := queue[|queue| - 1];
      SavesOf(queue[..|queue| - 1], v) + (if c.Save? && c.request.view == v then [c.request] else [])
  }

  lemma {:induction false} SavesOfConcat(a: seq<Command>, b: seq<Command>, v: ViewId)
    ensures SavesOf(a + b, v) == SavesOf(a, v) + SavesOf(b, v)
  {
    if b == [] {
      assert a + b == a;
    } else {
      var c := b[|b| - 1];
      var tail := if c.Save? && c.request.view == v then [c.request] else [];
      SavesOfConcat(a, b[..|b| - 1], v);
      assert (a + b)[..|a + b| - 1] == a + b[..|b| - 1];
      assert SavesOf(a + b, v) == (SavesOf(a, v) + SavesOf(b[..|b| - 1], v)) + tail;
      assert SavesOf(b, v) == SavesOf(b[..|b| - 1], v) + tail;
    }
  }

  lemma {:induction false} GroupIsSavesOf(batch: seq<SaveRequest>, n: nat, v: ViewId)
    requires n <= |batch|
    ensures GroupUpTo(batch, n, v) == SavesOf(Saves(batch)[..n], v)
  {
    if n > 0 {
      GroupIsSavesOf(batch, n - 1, v);
      assert Saves(batch)[..n][..n - 1] == Saves(batch)[..n - 1];
    }
  }

  lemma BatchSavesOf(batch: seq<SaveRequest>, v: ViewId)
    ensures Group(batch, v) == SavesOf(Saves(batch), v)
  {
    GroupIsSavesOf(batch, |batch|, v);
    assert Saves(batch)[..|batch|] == Saves(batch);
  }

  lemma RunPrefix(states: seq<Worker>, steps: seq<Step>)
    requires Run(states, steps) && steps != []
    ensures Run(states[..|steps|], steps[..|steps| - 1])
    ensures states[..|steps|][|steps| - 1] == states[|steps| - 1]
  {
  }

  /** Every step keeps the guard equal to what is durable. */
  lemma StepKeepsCoherence(w: Worker, step: Step, w': Worker, v: ViewId)
    requires Next(w, step, w') && Coherent(View(w, v))
    ensures Coherent(View(w', v))
  {
    if step.SaveBatch? {
      assert View(w', v) == SaveGroup(View(w, v), Group(step.batch, v), step.store);
    }
  }

  lemma {:induction false} RunIsCoherent(states: seq<Worker>, steps: seq<Step>, v: ViewId)
    requires Run(states, steps)
    ensures Coherent(View(states[|steps|], v))
  {
    if steps != [] {
      RunPrefix(states, steps);
      RunIsCoherent(states[..|steps|], steps[..|steps| - 1], v);
      StepKeepsCoherence(states[|steps| - 1], steps[|steps| - 1], states[|steps|], v);
    }
  }

  // --- the batching worker refines the one-at-a-time worker ---------------------------

  ghost predicate StoreAccepts(steps: seq<Step>) {
    forall i :: 0 <= i < |steps| && steps[i].SaveBatch? ==> AcceptsAll(steps[i].batch, steps[i].store)
  }

  const ACCEPTING: Store := r => None

  lemma {:induction false} SaveEachSameStore(vs: ViewState, g: seq<SaveRequest>, a: Store, b: Store)
    requires AcceptsAll(g, a) && AcceptsAll(g, b)
    ensures SaveEach(vs, g, a) == SaveEach(vs, g, b)
  {
    if g != [] {
      SplitLast(g);
      SaveEachSameStore(vs, g[..|g| - 1], a, b);
      assert g[|g| - 1] in g;
    }
  }

  lemma DistinctPart(a: seq<SaveRequest>, b: seq<SaveRequest>)
    requires DistinctSequences(a + b)
    ensures DistinctSequences(a) && DistinctSequences(b)
  {
    forall i, j | 0 <= i < j < |a| ensures a[i].sequence != a[j].sequence {
      assert (a + b)[i] == a[i] && (a + b)[j] == a[j];
    }
    forall i, j | 0 <= i < j < |b| ensures b[i].sequence != b[j].sequence {
      assert (a + b)[|a| + i] == b[i] && (a + b)[|a| + j] == b[j];
    }
  }

  /** One step moves a view exactly as serving its saves one at a time would. */
  lemma StepRefinesSerial(w: Worker, step: Step, w': Worker, v: ViewId)
    requires Next(w, step, w') && Coherent(View(w, v))
    requires step.SaveBatch? ==> AcceptsAll(step.batch, step.store)
    requires DistinctSequences(SavesOf(Consumed(step), v))
    ensures View(w', v) == SaveEach(View(w, v), SavesOf(Consumed(step), v), ACCEPTING)
  {
    if step.SaveBatch? {
      var g := Group(step.batch, v);
      BatchSavesOf(step.batch, v);
      GroupMembers(step.batch, |step.batch|, v);
      assert step.batch[..|step.batch|] == step.batch;
      AcceptedGroupIsSaveEach(View(w, v), g, step.store);
      SaveEachSameStore(View(w, v), g, step.store, ACCEPTING);
    } else {
      assert SavesOf(Consumed(step), v) == [] by {
        assert Consumed(step)[..0] == [];
      }
    }
  }

  /**
   * Whatever the drain sizes, after any number of steps of a run over an accepting store
   * each view is where the one-at-a-time worker is after the same queue prefix. A command
   * that is not a save is a step of its own, so it finds exactly this state.
   */
  lemma {:induction false} BatchingRefinesSerial(states: seq<Worker>, steps: seq<Step>, v: ViewId)
    requires Run(states, steps) && StoreAccepts(steps)
    requires DistinctSequences(SavesOf(Queue(steps), v))
    ensures View(states[|steps|], v)
      == SaveEach(ViewState(None, None, None), SavesOf(Queue(steps), v), ACCEPTING)
  {
    if steps != [] {
      var front, last := steps[..|steps| - 1], steps[|steps| - 1];
      assert SavesOf(Queue(steps), v) == SavesOf(Queue(front), v) + SavesOf(Consumed(last), v) by {
        SavesOfConcat(Queue(front), Consumed(last), v);
      }
      DistinctPart(SavesOf(Queue(front), v), SavesOf(Consumed(last), v));
      RunPrefix(states, steps);
      BatchingRefinesSerial(states[..|steps|], front, v);
      RunIsCoherent(states[..|steps|], front, v);
      StepRefinesSerial(states[|steps| - 1], last, states[|steps|], v);
      SaveEachConcat(ViewState(None, None, None), SavesOf(Queue(front), v), SavesOf(Consumed(last), v), ACCEPTING);
    }
  }
}
