/**
 * What the save worker's answers mean over a whole run: acknowledgements follow commits,
 * every consumed save is answered once, and Flush reports exactly the unrecovered failures.
 */
module SaveAcks {
  import opened Prelude
  import opened SaveGroups
  import opened SaveRuns

  // --- acknowledgements follow commits ---------------------------------------------------

  predicate IsCommit(e: Entry, v: ViewId) {
    e.Wrote? && e.failure.None? && e.request.view == v
  }

  /** Sequence of the last commit of view `v` in a log. */
  function LastCommit(log: seq<Entry>, v: ViewId): Option<nat> {
    if log == [] then None
    else CommitAfter(LastCommit(log[..|log| - 1], v), log[|log| - 1], v)
  }

  function CommitAfter(before: Option<nat>, e: Entry, v: ViewId): Option<nat> {
    if IsCommit(e, v) then Some(e.request.sequence) else before
  }

  predicate Covered(commit: Option<nat>, sequence: nat) {
    commit.Some? && commit.value >= sequence
  }

  /** Each Saved is covered by an earlier commit; each commit exceeds the view's earlier ones. */
  ghost predicate TruthfulEntry(before: seq<Entry>, e: Entry) {
    match e
    case Answered(keys, None) => forall k :: k in keys ==> Covered(LastCommit(before, k.view), k.sequence)
    case Wrote(r, None) => !Covered(LastCommit(before, r.view), r.sequence)
    case _ => true
  }

  ghost predicate Truthful(log: seq<Entry>) {
    forall i :: 0 <= i < |log| ==> TruthfulEntry(log[..i], log[i])
  }

  lemma TruthfulAppend(log: seq<Entry>, e: Entry)
    requires Truthful(log) && TruthfulEntry(log, e)
    ensures Truthful(log + [e])
    ensures forall v: ViewId :: LastCommit(log + [e], v) == CommitAfter(LastCommit(log, v), e, v)
  {
    TakeAppend(log, e);
    forall i | 0 <= i < |log + [e]| ensures TruthfulEntry((log + [e])[..i], (log + [e])[i]) {
      assert i < |log| ==> (log + [e])[..i] == log[..i];
    }
  }

  lemma KeysOfConcat(a: seq<SaveRequest>, b: seq<SaveRequest>)
    ensures KeysOf(a + b) == KeysOf(a) + KeysOf(b)
  {
  }

  /** Withholding and reordering lose no key and invent none. */
  lemma AnswerOrderKeepsKeys(g: seq<SaveRequest>)
    requires g != []
    ensures multiset(AnswerOrder(g)) == multiset(KeysOf(g))
  {
    var k := LatestIndex(g);
    KeysOfConcat(g[..k], g[k + 1..]);
    KeysOfConcat([g[k]], g[k + 1..]);
    KeysOfConcat(g[..k], [g[k]] + g[k + 1..]);
    assert g == g[..k] + ([g[k]] + g[k + 1..]);
    assert KeysOf([g[k]]) == [KeyOf(g[k])];
  }

  lemma SortKeepsBound(s: seq<Key>, top: nat)
    requires forall i :: 0 <= i < |s| ==> s[i].sequence <= top
    ensures |SortKeys(s)| == |s| && forall i :: 0 <= i < |s| ==> SortKeys(s)[i].sequence <= top
  {
    var t := SortKeys(s);
    assert |t| == |s| by {
      assert |multiset(t)| == |multiset(s)|;
    }
    forall i | 0 <= i < |t| ensures t[i].sequence <= top {
      assert t[i] in multiset(t);
      assert t[i] in s;
    }
  }

  lemma AscendingThenLast(s: seq<Key>, last: Key)
    requires AscendingKeys(s) && forall i :: 0 <= i < |s| ==> s[i].sequence <= last.sequence
    ensures AscendingKeys(s + [last])
  {
  }

  /** Answers go out in ascending order, the newest save of the group last. */
  lemma AnswersAscend(g: seq<SaveRequest>)
    requires g != []
    ensures |AnswerOrder(g)| == |g| && AnswerOrder(g)[|g| - 1] == KeyOf(Latest(g))
    ensures AscendingKeys(AnswerOrder(g))
  {
    var k := LatestIndex(g);
    var others := g[..k] + g[k + 1..];
    LatestIsHighest(g);
    forall i | 0 <= i < |others| ensures KeysOf(others)[i].sequence <= Latest(g).sequence {
      assert others[i] == if i < k then g[i] else g[i + 1];
    }
    SortKeepsBound(KeysOf(others), Latest(g).sequence);
    SortIsStable(KeysOf(others), 0);
    AscendingThenLast(SortKeys(KeysOf(others)), KeyOf(Latest(g)));
  }

  lemma AnswerKeyBounds(batch: seq<SaveRequest>, v: ViewId, k: Key)
    requires Group(batch, v) != [] && k in AnswerOrder(Group(batch, v))
    ensures k.view == v && k.sequence <= Latest(Group(batch, v)).sequence
  {
    var g := Group(batch, v);
    AnswerOrderKeepsKeys(g);
    assert k in multiset(KeysOf(g));
    var i :| 0 <= i < |g| && KeysOf(g)[i] == k;
    LatestIsHighest(g);
    GroupMembers(batch, |batch|, v);
    assert g[i] in g;
  }

  lemma LatestIsOfView(batch: seq<SaveRequest>, v: ViewId)
    requires Group(batch, v) != []
    ensures Latest(Group(batch, v)).view == v
  {
    LatestIsHighest(Group(batch, v));
    GroupMembers(batch, |batch|, v);
  }

  /** A group answered Saved is one whose latest sequence has been committed. */
  predicate Supported(w: Worker, batch: seq<SaveRequest>, store: Store, v: ViewId, commit: Option<nat>)
    requires Group(batch, v) != []
  {
    Verdict(View(w, v), Group(batch, v), store).None? ==> Covered(commit, Latest(Group(batch, v)).sequence)
  }

  lemma SupportedAnswerIsTruthful(w: Worker, batch: seq<SaveRequest>, store: Store, v: ViewId, log: seq<Entry>)
    requires Group(batch, v) != [] && Supported(w, batch, store, v, LastCommit(log, v))
    ensures TruthfulEntry(log, GroupAnswer(w, batch, store, v))
  {
    forall k | k in AnswerOrder(Group(batch, v)) ensures k.view == v && k.sequence <= Latest(Group(batch, v)).sequence {
      AnswerKeyBounds(batch, v, k);
    }
  }

  lemma AnswerViewsSplit(w: Worker, batch: seq<SaveRequest>, store: Store, views: seq<ViewId>, log: seq<Entry>)
    requires HaveGroups(batch, views) && views != []
    ensures HaveGroups(batch, views[..|views| - 1])
    ensures log + AnswerViews(w, batch, store, views)
      == (log + AnswerViews(w, batch, store, views[..|views| - 1])) + [GroupAnswer(w, batch, store, views[|views| - 1])]
  {
  }

  lemma WriteViewsSplit(batch: seq<SaveRequest>, store: Store, views: seq<ViewId>, log: seq<Entry>)
    requires HaveGroups(batch, views) && views != []
    ensures HaveGroups(batch, views[..|views| - 1])
    ensures log + WriteViews(batch, store, views)
      == (log + WriteViews(batch, store, views[..|views| - 1])) + [GroupWrite(batch, store, views[|views| - 1])]
  {
  }

  /** Answering groups whose verdict the log already supports keeps the log truthful. */
  lemma {:induction false} AppendAnswers(w: Worker, batch: seq<SaveRequest>, store: Store, views: seq<ViewId>,
        log: seq<Entry>)
    requires Truthful(log) && HaveGroups(batch, views)
    requires forall i :: 0 <= i < |views| ==> Supported(w, batch, store, views[i], LastCommit(log, views[i]))
    ensures Truthful(log + AnswerViews(w, batch, store, views))
    ensures forall v: ViewId :: LastCommit(log + AnswerViews(w, batch, store, views), v) == LastCommit(log, v)
  {
    if views == [] {
      assert log + AnswerViews(w, batch, store, views) == log;
    } else {
      var front, v := views[..|views| - 1], views[|views| - 1];
      AnswerViewsSplit(w, batch, store, views, log);
      AppendAnswers(w, batch, store, front, log);
      var mid := log + AnswerViews(w, batch, store, front);
      SupportedAnswerIsTruthful(w, batch, store, v, mid);
      TruthfulAppend(mid, GroupAnswer(w, batch, store, v));
    }
  }

  /** The last commit of `v` once the transaction over `views` is recorded. */
  function CommitOver(w: Worker, batch: seq<SaveRequest>, store: Store, views: seq<ViewId>, v: ViewId): Option<nat> {
    var g := Group(batch, v);
    if v in views && g != [] && Rejection(Latest(g), store).None? then Some(Latest(g).sequence) else View(w, v).newest
  }

  lemma {:induction false} AppendWrites(w: Worker, batch: seq<SaveRequest>, store: Store, views: seq<ViewId>,
        log: seq<Entry>)
    requires Truthful(log) && NoDuplicates(views) && HaveGroups(batch, views)
    requires forall i :: 0 <= i < |views| ==> !Stale(View(w, views[i]), Latest(Group(batch, views[i])))
    requires forall v: ViewId :: LastCommit(log, v) == View(w, v).newest
    ensures Truthful(log + WriteViews(batch, store, views))
    ensures forall v: ViewId ::
      LastCommit(log + WriteViews(batch, store, views), v) == CommitOver(w, batch, store, views, v)
  {
    if views == [] {
      assert log + WriteViews(batch, store, views) == log;
    } else {
      var front, v := views[..|views| - 1], views[|views| - 1];
      SplitLast(views);
      WriteViewsSplit(batch, store, views, log);
      AppendWrites(w, batch, store, front, log);
      var mid := log + WriteViews(batch, store, front);
      LatestIsOfView(batch, v);
      TruthfulAppend(mid, GroupWrite(batch, store, v));
      forall u: ViewId
        ensures LastCommit(log + WriteViews(batch, store, views), u) == CommitOver(w, batch, store, views, u)
      {
        assert LastCommit(mid, u) == CommitOver(w, batch, store, front, u);
        assert u in views <==> u in front || u == v;
      }
    }
  }

  /** The guard is exactly the last commit of each view. */
  ghost predicate AckInvariant(w: Worker) {
    Truthful(w.log) && forall v: ViewId :: LastCommit(w.log, v) == View(w, v).newest
  }

  lemma NewestAfterBatch(w: Worker, batch: seq<SaveRequest>, store: Store, quiet: seq<ViewId>,
        written: seq<ViewId>, w': Worker, v: ViewId)
    requires BatchNext(w, batch, store, quiet, written, w')
    ensures View(w', v).newest == CommitOver(w, batch, store, written, v)
  {
    assert View(w', v) == SaveGroup(View(w, v), Group(batch, v), store);
    if v in quiet {
      assert Quiet(w, batch, v);
    } else if v in written {
      assert !Quiet(w, batch, v);
    } else {
      assert v !in quiet + written;
    }
  }

  lemma PartsDistinct(quiet: seq<ViewId>, written: seq<ViewId>)
    requires NoDuplicates(quiet + written)
    ensures NoDuplicates(quiet) && NoDuplicates(written)
  {
    assert forall i :: 0 <= i < |quiet| ==> quiet[i] == (quiet + written)[i];
    assert forall i :: 0 <= i < |written| ==> written[i] == (quiet + written)[|quiet| + i];
  }

  lemma BatchKeepsAcks(w: Worker, batch: seq<SaveRequest>, store: Store, quiet: seq<ViewId>,
        written: seq<ViewId>, w': Worker)
    requires AckInvariant(w) && BatchNext(w, batch, store, quiet, written, w')
    ensures AckInvariant(w')
  {
    PartsDistinct(quiet, written);
    forall i | 0 <= i < |quiet| ensures Supported(w, batch, store, quiet[i], LastCommit(w.log, quiet[i])) {
      assert quiet[i] in quiet && Quiet(w, batch, quiet[i]);
    }
    forall i | 0 <= i < |written| ensures !Stale(View(w, written[i]), Latest(Group(batch, written[i]))) {
      assert written[i] in written && !Quiet(w, batch, written[i]);
    }
    var log1 := w.log + AnswerViews(w, batch, store, quiet);
    AppendAnswers(w, batch, store, quiet, w.log);
    var log2 := log1 + WriteViews(batch, store, written);
    AppendWrites(w, batch, store, written, log1);
    forall i | 0 <= i < |written| ensures Supported(w, batch, store, written[i], LastCommit(log2, written[i])) {
      assert LastCommit(log2, written[i]) == CommitOver(w, batch, store, written, written[i]);
    }
    AppendAnswers(w, batch, store, written, log2);
    forall v: ViewId ensures LastCommit(w'.log, v) == View(w', v).newest {
      assert LastCommit(w'.log, v) == LastCommit(log2, v);
      NewestAfterBatch(w, batch, store, quiet, written, w', v);
    }
  }

  lemma StepKeepsAcks(w: Worker, step: Step, w': Worker)
    requires AckInvariant(w) && Next(w, step, w')
    ensures AckInvariant(w')
  {
    match step {
      case SaveBatch(batch, store, quiet, written) => BatchKeepsAcks(w, batch, store, quiet, written, w');
      case Serve(Recipe(failure), _) =>
        TruthfulAppend(w.log, RecipeSettled(failure));
        assert forall v: ViewId :: View(w', v) == View(w, v);
      case Serve(Flush, reply) =>
        TruthfulAppend(w.log, FlushReplied(reply));
        assert forall v: ViewId :: View(w', v) == View(w, v);
      case Serve(Stop, _) =>
        assert forall v: ViewId :: View(w', v) == View(w, v);
      case _ =>
    }
  }

  lemma {:induction false} RunKeepsAcks(states: seq<Worker>, steps: seq<Step>)
    requires Run(states, steps)
    ensures AckInvariant(states[|steps|])
  {
    if steps != [] {
      RunPrefix(states, steps);
      RunKeepsAcks(states[..|steps|], steps[..|steps| - 1]);
      StepKeepsAcks(states[|steps| - 1], steps[|steps| - 1], states[|steps|]);
    }
  }

  lemma {:induction false} LastCommitIsThere(log: seq<Entry>, v: ViewId) returns (j: nat)
    requires LastCommit(log, v).Some?
    ensures j < |log| && IsCommit(log[j], v) && log[j].request.sequence == LastCommit(log, v).value
  {
    if IsCommit(log[|log| - 1], v) {
      j := |log| - 1;
    } else {
      j := LastCommitIsThere(log[..|log| - 1], v);
    }
  }

  lemma TruthfulPrefix(log: seq<Entry>, n: nat)
    requires Truthful(log) && n <= |log|
    ensures Truthful(log[..n])
  {
    forall i | 0 <= i < n ensures TruthfulEntry(log[..n][..i], log[..n][i]) {
      assert log[..n][..i] == log[..i];
    }
  }

  lemma {:induction false} CommitBelowLast(log: seq<Entry>, j: nat, v: ViewId)
    requires Truthful(log) && j < |log| && IsCommit(log[j], v)
    ensures Covered(LastCommit(log, v), log[j].request.sequence)
    decreases |log|
  {
    var front := log[..|log| - 1];
    if j < |front| {
      TruthfulPrefix(log, |log| - 1);
      CommitBelowLast(front, j, v);
      assert TruthfulEntry(front, log[|log| - 1]);
    }
  }

  /** `log[j]` commits a save of the view of `k` that is at least as new. */
  ghost predicate CommittedBefore(log: seq<Entry>, i: nat, k: Key) {
    exists j :: 0 <= j < i <= |log| && IsCommit(log[j], k.view) && log[j].request.sequence >= k.sequence
  }

  /**
   * In every run, for every pattern of store failures: a save is acknowledged as saved only
   * after a commit of its view at least as new, and a view's commits strictly increase.
   */
  lemma AcksAreTruthful(states: seq<Worker>, steps: seq<Step>)
    requires Run(states, steps)
    ensures var log := states[|steps|].log;
      forall i :: 0 <= i < |log| && log[i].Answered? && log[i].verdict.None? ==>
        forall k :: k in log[i].keys ==> CommittedBefore(log, i, k)
    ensures var log := states[|steps|].log;
      forall v, i, j :: 0 <= i < j < |log| && IsCommit(log[i], v) && IsCommit(log[j], v)
        ==> log[i].request.sequence < log[j].request.sequence
  {
    RunKeepsAcks(states, steps);
    var log := states[|steps|].log;
    forall i | 0 <= i < |log| && log[i].Answered? && log[i].verdict.None?
      ensures forall k :: k in log[i].keys ==> CommittedBefore(log, i, k)
    {
      assert TruthfulEntry(log[..i], log[i]);
      forall k | k in log[i].keys ensures CommittedBefore(log, i, k) {
        var j := LastCommitIsThere(log[..i], k.view);
        assert log[..i][j] == log[j];
      }
    }
    forall v, i, j | 0 <= i < j < |log| && IsCommit(log[i], v) && IsCommit(log[j], v)
      ensures log[i].request.sequence < log[j].request.sequence
    {
      assert TruthfulEntry(log[..j], log[j]);
      TruthfulPrefix(log, j);
      CommitBelowLast(log[..j], i, v);
    }
  }

  // --- every consumed save is answered exactly once --------------------------------------

  function One(b: bool): nat {
    if b then 1 else 0
  }

  function AnswersIn(e: Entry, k: Key): nat {
    if e.Answered? then multiset(e.keys)[k] else 0
  }

  /** How many answers name `k`. */
  function AnswerCount(log: seq<Entry>, k: Key): nat {
    if log == [] then 0
    else AnswerCount(log[..|log| - 1], k) + AnswersIn(log[|log| - 1], k)
  }

  /** How many queued saves have key `k`. */
  function QueuedCount(queue: seq<Command>, k: Key): nat {
    if queue == [] then 0
    else QueuedCount(queue[..|queue| - 1], k) + One(queue[|queue| - 1].Save? && KeyOf(queue[|queue| - 1].request) == k)
  }

  lemma {:induction false} QueuedConcat(a: seq<Command>, b: seq<Command>, k: Key)
    ensures QueuedCount(a + b, k) == QueuedCount(a, k) + QueuedCount(b, k)
  {
    if b == [] {
      assert a + b == a;
    } else {
      QueuedConcat(a, b[..|b| - 1], k);
      assert (a + b)[..|a + b| - 1] == a + b[..|b| - 1];
    }
  }

  /** Requests with key `k` among the first `n`. */
  function KeyCount(batch: seq<SaveRequest>, n: nat, k: Key): nat
    requires n <= |batch|
  {
    if n == 0 then 0 else KeyCount(batch, n - 1, k) + One(KeyOf(batch[n - 1]) == k)
  }

  lemma {:induction false} GroupCount(batch: seq<SaveRequest>, n: nat, v: ViewId, k: Key)
    requires n <= |batch|
    ensures multiset(KeysOf(GroupUpTo(batch, n, v)))[k] == if k.view == v then KeyCount(batch, n, k) else 0
  {
    if n > 0 {
      GroupCount(batch, n - 1, v, k);
      if batch[n - 1].view == v {
        KeysOfConcat(GroupUpTo(batch, n - 1, v), [batch[n - 1]]);
        assert KeysOf([batch[n - 1]]) == [KeyOf(batch[n - 1])];
      }
    }
  }

  lemma GroupAnswerCount(w: Worker, batch: seq<SaveRequest>, store: Store, v: ViewId, k: Key)
    requires Group(batch, v) != []
    ensures AnswersIn(GroupAnswer(w, batch, store, v), k) == if k.view == v then KeyCount(batch, |batch|, k) else 0
  {
    GroupCount(batch, |batch|, v, k);
    AnswerOrderKeepsKeys(Group(batch, v));
  }

  lemma CountAppend(log: seq<Entry>, e: Entry, k: Key)
    ensures AnswerCount(log + [e], k) == AnswerCount(log, k) + AnswersIn(e, k)
  {
    TakeAppend(log, e);
  }

  lemma {:induction false} ViewsAnswerCount(w: Worker, batch: seq<SaveRequest>, store: Store,
        views: seq<ViewId>, log: seq<Entry>, k: Key)
    requires NoDuplicates(views) && HaveGroups(batch, views)
    ensures AnswerCount(log + AnswerViews(w, batch, store, views), k)
      == AnswerCount(log, k) + if k.view in views then KeyCount(batch, |batch|, k) else 0
  {
    if views == [] {
      assert log + AnswerViews(w, batch, store, views) == log;
    } else {
      var front, v := views[..|views| - 1], views[|views| - 1];
      SplitLast(views);
      AnswerViewsSplit(w, batch, store, views, log);
      ViewsAnswerCount(w, batch, store, front, log, k);
      CountAppend(log + AnswerViews(w, batch, store, front), GroupAnswer(w, batch, store, v), k);
      GroupAnswerCount(w, batch, store, v, k);
      assert k.view in views <==> k.view in front || k.view == v;
    }
  }

  lemma {:induction false} WritesAnswerNothing(batch: seq<SaveRequest>, store: Store, views: seq<ViewId>,
        log: seq<Entry>, k: Key)
    requires HaveGroups(batch, views)
    ensures AnswerCount(log + WriteViews(batch, store, views), k) == AnswerCount(log, k)
  {
    if views == [] {
      assert log + WriteViews(batch, store, views) == log;
    } else {
      var front, v := views[..|views| - 1], views[|views| - 1];
      WriteViewsSplit(batch, store, views, log);
      WritesAnswerNothing(batch, store, front, log, k);
      CountAppend(log + WriteViews(batch, store, front), GroupWrite(batch, store, v), k);
    }
  }

  lemma {:induction false} BatchQueued(batch: seq<SaveRequest>, n: nat, k: Key)
    requires n <= |batch|
    ensures QueuedCount(Saves(batch)[..n], k) == KeyCount(batch, n, k)
  {
    if n > 0 {
      BatchQueued(batch, n - 1, k);
      assert Saves(batch)[..n][..n - 1] == Saves(batch)[..n - 1];
    }
  }

  lemma {:induction false} CountedHasGroup(batch: seq<SaveRequest>, n: nat, k: Key)
    requires n <= |batch| && KeyCount(batch, n, k) > 0
    ensures GroupUpTo(batch, n, k.view) != []
  {
    if KeyOf(batch[n - 1]) != k {
      CountedHasGroup(batch, n - 1, k);
    }
  }

  lemma BatchAnswersEachOnce(w: Worker, batch: seq<SaveRequest>, store: Store, quiet: seq<ViewId>,
        written: seq<ViewId>, w': Worker, k: Key)
    requires BatchNext(w, batch, store, quiet, written, w')
    ensures AnswerCount(w'.log, k) == AnswerCount(w.log, k) + QueuedCount(Saves(batch), k)
  {
    PartsDistinct(quiet, written);
    assert !(k.view in quiet && k.view in written);
    var log1 := w.log + AnswerViews(w, batch, store, quiet);
    ViewsAnswerCount(w, batch, store, quiet, w.log, k);
    WritesAnswerNothing(batch, store, written, log1, k);
    ViewsAnswerCount(w, batch, store, written, log1 + WriteViews(batch, store, written), k);
    BatchQueued(batch, |batch|, k);
    assert Saves(batch)[..|batch|] == Saves(batch);
    if KeyCount(batch, |batch|, k) > 0 {
      CountedHasGroup(batch, |batch|, k);
      assert k.view in quiet + written;
    }
  }

  /** Over a run every save consumed from the queue is answered once, with multiplicity. */
  lemma {:induction false} EachSaveAnsweredOnce(states: seq<Worker>, steps: seq<Step>, k: Key)
    requires Run(states, steps)
    ensures AnswerCount(states[|steps|].log, k) == QueuedCount(Queue(steps), k)
  {
    if steps != [] {
      var front, last := steps[..|steps| - 1], steps[|steps| - 1];
      RunPrefix(states, steps);
      EachSaveAnsweredOnce(states[..|steps|], front, k);
      QueuedConcat(Queue(front), Consumed(last), k);
      var w, w' := states[|steps| - 1], states[|steps|];
      assert Next(w, last, w');
      if last.SaveBatch? {
        BatchAnswersEachOnce(w, last.batch, last.store, last.quiet, last.written, w', k);
      } else {
        assert QueuedCount(Consumed(last), k) == 0;
        if w'.log != w.log {
          assert w'.log[..|w'.log| - 1] == w.log;
        }
      }
    }
  }

  // --- Flush ---------------------------------------------------------------------------

  /** What the log last settles about `v`: the cause of a failed group, nothing after a commit. */
  function LastCause(log: seq<Entry>, v: ViewId): Option<Failure> {
    if log == [] then None else CauseAfter(LastCause(log[..|log| - 1], v), log[|log| - 1], v)
  }

  function CauseAfter(before: Option<Failure>, e: Entry, v: ViewId): Option<Failure> {
    if IsCommit(e, v) then None
    else if e.Answered? && e.verdict.Some? && e.keys != [] && e.keys[|e.keys| - 1].view == v then e.verdict
    else before
  }

  /** The cause of the last recipe, if it failed. */
  function LastRecipe(log: seq<Entry>): Option<Failure> {
    if log == [] then None
    else if log[|log| - 1].RecipeSettled? then log[|log| - 1].failure
    else LastRecipe(log[..|log| - 1])
  }

  lemma {:induction false} NoRecipeConcat(a: seq<Entry>, b: seq<Entry>)
    requires forall i :: 0 <= i < |b| ==> !b[i].RecipeSettled?
    ensures LastRecipe(a + b) == LastRecipe(a)
  {
    if b == [] {
      assert a + b == a;
    } else {
      NoRecipeConcat(a, b[..|b| - 1]);
      assert (a + b)[..|a + b| - 1] == a + b[..|b| - 1];
    }
  }

  lemma SettledAppend(log: seq<Entry>, e: Entry, v: ViewId)
    ensures LastCause(log + [e], v) == CauseAfter(LastCause(log, v), e, v)
  {
    TakeAppend(log, e);
  }

  lemma {:induction false} AnswersSettle(w: Worker, batch: seq<SaveRequest>, store: Store, views: seq<ViewId>,
        log: seq<Entry>, v: ViewId)
    requires HaveGroups(batch, views)
    ensures LastCause(log + AnswerViews(w, batch, store, views), v) ==
      if v in views && Group(batch, v) != [] && Verdict(View(w, v), Group(batch, v), store).Some?
      then Verdict(View(w, v), Group(batch, v), store) else LastCause(log, v)
  {
    if views == [] {
      assert log + AnswerViews(w, batch, store, views) == log;
    } else {
      var front, u := views[..|views| - 1], views[|views| - 1];
      SplitLast(views);
      AnswerViewsSplit(w, batch, store, views, log);
      AnswersSettle(w, batch, store, front, log, v);
      SettledAppend(log + AnswerViews(w, batch, store, front), GroupAnswer(w, batch, store, u), v);
      LatestIsOfView(batch, u);
      assert v in views <==> v in front || v == u;
    }
  }

  lemma {:induction false} WritesSettle(batch: seq<SaveRequest>, store: Store, views: seq<ViewId>,
        log: seq<Entry>, v: ViewId)
    requires HaveGroups(batch, views)
    ensures LastCause(log + WriteViews(batch, store, views), v) ==
      if v in views && Group(batch, v) != [] && Rejection(Latest(Group(batch, v)), store).None?
      then None else LastCause(log, v)
  {
    if views == [] {
      assert log + WriteViews(batch, store, views) == log;
    } else {
      var front, u := views[..|views| - 1], views[|views| - 1];
      SplitLast(views);
      WriteViewsSplit(batch, store, views, log);
      WritesSettle(batch, store, front, log, v);
      SettledAppend(log + WriteViews(batch, store, front), GroupWrite(batch, store, u), v);
      LatestIsOfView(batch, u);
      assert v in views <==> v in front || v == u;
    }
  }

  /** The recorded failures are exactly the causes that the log says are unrecovered. */
  ghost predicate FailureInvariant(w: Worker) {
    w.recipeFailure == LastRecipe(w.log) && forall v: ViewId :: View(w, v).failed == LastCause(w.log, v)
  }

  lemma BatchKeepsFailures(w: Worker, batch: seq<SaveRequest>, store: Store, quiet: seq<ViewId>,
        written: seq<ViewId>, w': Worker, v: ViewId)
    requires BatchNext(w, batch, store, quiet, written, w')
    requires View(w, v).failed == LastCause(w.log, v)
    ensures View(w', v).failed == LastCause(w'.log, v)
  {
    var log1 := w.log + AnswerViews(w, batch, store, quiet);
    AnswersSettle(w, batch, store, quiet, w.log, v);
    var log2 := log1 + WriteViews(batch, store, written);
    WritesSettle(batch, store, written, log1, v);
    AnswersSettle(w, batch, store, written, log2, v);
    assert View(w', v) == SaveGroup(View(w, v), Group(batch, v), store);
    if v in quiet {
      assert Quiet(w, batch, v);
    } else if v in written {
      assert !Quiet(w, batch, v);
    } else {
      assert v !in quiet + written;
    }
  }

  lemma BatchKeepsRecipe(w: Worker, batch: seq<SaveRequest>, store: Store, quiet: seq<ViewId>,
        written: seq<ViewId>, w': Worker)
    requires BatchNext(w, batch, store, quiet, written, w')
    ensures LastRecipe(w'.log) == LastRecipe(w.log)
  {
    var a, b := AnswerViews(w, batch, store, quiet), WriteViews(batch, store, written);
    var c := AnswerViews(w, batch, store, written);
    NoRecipeConcat(w.log, a);
    NoRecipeConcat(w.log + a, b);
    NoRecipeConcat(w.log + a + b, c);
  }

  lemma BatchKeepsInvariant(w: Worker, batch: seq<SaveRequest>, store: Store, quiet: seq<ViewId>,
        written: seq<ViewId>, w': Worker)
    requires FailureInvariant(w) && BatchNext(w, batch, store, quiet, written, w')
    ensures FailureInvariant(w')
  {
    forall v: ViewId ensures View(w', v).failed == LastCause(w'.log, v) {
      BatchKeepsFailures(w, batch, store, quiet, written, w', v);
    }
    BatchKeepsRecipe(w, batch, store, quiet, written, w');
  }

  lemma StepKeepsFailures(w: Worker, step: Step, w': Worker)
    requires FailureInvariant(w) && Next(w, step, w')
    ensures FailureInvariant(w')
  {
    match step {
      case SaveBatch(batch, store, quiet, written) => BatchKeepsInvariant(w, batch, store, quiet, written, w');
      case Serve(command, reply) =>
        assert forall v: ViewId :: View(w', v).failed == View(w, v).failed;
        if w'.log != w.log {
          TakeAppend(w.log, w'.log[|w.log|]);
          assert w'.log == w.log + [w'.log[|w.log|]];
        }
    }
  }

  lemma {:induction false} RunKeepsFailures(states: seq<Worker>, steps: seq<Step>)
    requires Run(states, steps)
    ensures FailureInvariant(states[|steps|])
  {
    if steps != [] {
      RunPrefix(states, steps);
      RunKeepsFailures(states[..|steps|], steps[..|steps| - 1]);
      StepKeepsFailures(states[|steps| - 1], steps[|steps| - 1], states[|steps|]);
    }
  }

  /** A recipe failure, or a view whose last settled save group failed. */
  ghost predicate Unrecovered(log: seq<Entry>) {
    LastRecipe(log).Some? || exists v: ViewId :: LastCause(log, v).Some?
  }

  /**
   * Flush fails exactly when a recipe failure or some view's refused group is unrecovered, and its reply is
   * that failure: the recipe's first, and a plain refusal only if no view failed of anything else.
   */
  lemma FlushReportsUnrecoveredFailures(states: seq<Worker>, steps: seq<Step>, reply: Option<Failure>)
    requires Run(states, steps) && steps != [] && steps[|steps| - 1] == Serve(Flush, reply)
    ensures var log := states[|steps| - 1].log;
      && (reply.Some? <==> Unrecovered(log))
      && (LastRecipe(log).Some? ==> reply == LastRecipe(log))
      && (LastRecipe(log).None? && reply.Some? ==> exists v: ViewId :: LastCause(log, v) == reply)
      && (LastRecipe(log).None? && reply.Some? && reply.value.refusal ==>
            forall v: ViewId :: LastCause(log, v).Some? ==> LastCause(log, v).value.refusal)
  {
    RunPrefix(states, steps);
    RunKeepsFailures(states[..|steps|], steps[..|steps| - 1]);
    var w := states[|steps| - 1];
    assert Next(w, steps[|steps| - 1], states[|steps|]);
    assert FlushAnswer(w, reply) && FailureInvariant(w);
    assert forall v: ViewId :: LastCause(w.log, v) == Lookup(w.failed, v) by {
      assert forall v: ViewId :: View(w, v).failed == Lookup(w.failed, v);
    }
    if w.recipeFailure.None? && w.failed != map[] {
      var v :| v in w.failed && w.failed[v] == reply.value;
      assert LastCause(w.log, v) == reply;
    }
  }

  // --- causes ----------------------------------------------------------------------------

  /** A save of the batch that no save of its view in the batch outdoes: the one with `sequence` and nothing newer. */
  ghost predicate Newest(batch: seq<SaveRequest>, r: SaveRequest) {
    r in batch && forall q :: q in batch && q.view == r.view ==> q.sequence <= r.sequence
  }

  /** A failed answer gives the reason its group's newest save failed: its own form, or the store's verdict on it. */
  ghost predicate CauseOf(batch: seq<SaveRequest>, store: Store, keys: seq<Key>, cause: Failure, r: SaveRequest) {
    && Newest(batch, r) && keys != [] && keys[|keys| - 1] == KeyOf(r)
    && if r.malformed then cause == MALFORMED else store(r) == Some(cause)
  }

  /** What a batch step may add to the log, told by the batch and the store alone. */
  ghost predicate HonestEntry(batch: seq<SaveRequest>, store: Store, e: Entry) {
    match e
    case Wrote(r, failure) => Newest(batch, r) && !r.malformed && failure == store(r)
    case Answered(keys, Some(cause)) => exists r :: CauseOf(batch, store, keys, cause, r)
    case Answered(keys, None) => keys != []
    case _ => false
  }

  lemma GroupNewest(batch: seq<SaveRequest>, v: ViewId)
    requires Group(batch, v) != []
    ensures Newest(batch, Latest(Group(batch, v)))
  {
    LatestIsHighest(Group(batch, v));
    GroupMembers(batch, |batch|, v);
    assert batch[..|batch|] == batch;
    LatestIsOfView(batch, v);
    var g := Group(batch, v);
    forall q | q in batch && q.view == v ensures q.sequence <= Latest(g).sequence {
      assert q in g;
      var i :| 0 <= i < |g| && g[i] == q;
    }
  }

  lemma AnswerIsHonest(w: Worker, batch: seq<SaveRequest>, store: Store, v: ViewId)
    requires Group(batch, v) != []
    ensures HonestEntry(batch, store, GroupAnswer(w, batch, store, v))
  {
    GroupNewest(batch, v);
    var answer := GroupAnswer(w, batch, store, v);
    if answer.verdict.Some? {
      assert CauseOf(batch, store, answer.keys, answer.verdict.value, Latest(Group(batch, v)));
    }
  }

  /** Every write names the store's verdict, and every failed answer the reason of its newest save. */
  lemma BatchIsHonest(w: Worker, batch: seq<SaveRequest>, store: Store, quiet: seq<ViewId>, written: seq<ViewId>,
        w': Worker, i: nat)
    requires BatchNext(w, batch, store, quiet, written, w') && |w.log| <= i < |w'.log|
    ensures HonestEntry(batch, store, w'.log[i])
  {
    var k := i - |w.log|;
    if k < |quiet| {
      AnswerIsHonest(w, batch, store, quiet[k]);
    } else if k < |quiet| + |written| {
      var v := written[k - |quiet|];
      GroupNewest(batch, v);
      assert v in written && !Quiet(w, batch, v);
    } else {
      AnswerIsHonest(w, batch, store, written[k - |quiet| - |written|]);
    }
  }

  /** Over a run: what each batch step adds to the log is honest about its batch and its store. */
  lemma RunsAreHonest(states: seq<Worker>, steps: seq<Step>, n: nat, i: nat)
    requires Run(states, steps) && n < |steps| && steps[n].SaveBatch?
    requires |states[n].log| <= i < |states[n + 1].log|
    ensures states[n].log <= states[n + 1].log
    ensures HonestEntry(steps[n].batch, steps[n].store, states[n + 1].log[i])
  {
    assert Next(states[n], steps[n], states[n + 1]);
    BatchIsHonest(states[n], steps[n].batch, steps[n].store, steps[n].quiet, steps[n].written, states[n + 1], i);
  }

  ghost predicate IncreasingSequences(g: seq<SaveRequest>) {
    forall i, j :: 0 <= i < j < |g| ==> g[i].sequence < g[j].sequence
  }

  /** Either the last save of a view is the durable one, or its failure is on record. */
  predicate LastSaveAccounted(vs: ViewState, g: seq<SaveRequest>) {
    if g == [] then vs.newest.None?
    else
      && (vs.newest.Some? ==> vs.newest.value <= g[|g| - 1].sequence)
      && (vs.failed.Some? || vs.durable == Some(g[|g| - 1]))
  }

  lemma GroupAccounted(vs: ViewState, a: seq<SaveRequest>, b: seq<SaveRequest>, store: Store)
    requires IncreasingSequences(a + b) && LastSaveAccounted(vs, a)
    ensures LastSaveAccounted(SaveGroup(vs, b, store), a + b)
  {
    if b == [] {
      assert a + b == a;
    } else {
      var top := |b| - 1;
      assert (a + b)[|a| + top] == b[top];
      LatestIsHighest(b);
      assert LatestIndex(b) == top by {
        assert (a + b)[|a| + LatestIndex(b)] == b[LatestIndex(b)];
      }
      if a != [] {
        assert (a + b)[|a| - 1] == a[|a| - 1];
      }
    }
  }

  lemma IncreasingPart(a: seq<SaveRequest>, b: seq<SaveRequest>)
    requires IncreasingSequences(a + b)
    ensures IncreasingSequences(a)
  {
    forall i, j | 0 <= i < j < |a| ensures a[i].sequence < a[j].sequence {
      assert (a + b)[i] == a[i] && (a + b)[j] == a[j];
    }
  }

  lemma {:induction false} RunAccountsLastSave(states: seq<Worker>, steps: seq<Step>, v: ViewId)
    requires Run(states, steps) && IncreasingSequences(SavesOf(Queue(steps), v))
    ensures LastSaveAccounted(View(states[|steps|], v), SavesOf(Queue(steps), v))
  {
    if steps != [] {
      var front, last := steps[..|steps| - 1], steps[|steps| - 1];
      var a, b := SavesOf(Queue(front), v), SavesOf(Consumed(last), v);
      assert SavesOf(Queue(steps), v) == a + b by {
        SavesOfConcat(Queue(front), Consumed(last), v);
      }
      IncreasingPart(a, b);
      RunPrefix(states, steps);
      RunAccountsLastSave(states[..|steps|], front, v);
      var w, w' := states[|steps| - 1], states[|steps|];
      assert Next(w, last, w');
      if last.SaveBatch? {
        BatchSavesOf(last.batch, v);
        GroupAccounted(View(w, v), a, b, last.store);
      } else {
        assert View(w', v) == View(w, v);
        assert b == [];
        assert a + b == a;
      }
    }
  }

  /** With sequences submitted in order, a clean Flush means every view's last queued save is the durable one. */
  lemma CleanFlushIsDurable(states: seq<Worker>, steps: seq<Step>, v: ViewId)
    requires Run(states, steps) && steps != [] && steps[|steps| - 1] == Serve(Flush, None)
    requires IncreasingSequences(SavesOf(Queue(steps), v)) && SavesOf(Queue(steps), v) != []
    ensures var g := SavesOf(Queue(steps), v);
      v in states[|steps|].durable && states[|steps|].durable[v] == g[|g| - 1]
  {
    RunAccountsLastSave(states, steps, v);
    assert Next(states[|steps| - 1], steps[|steps| - 1], states[|steps|]);
  }
}
