/**
 * The durable save worker itself: one-entry stash, drained batches, coalescing by view,
 * withheld acknowledgements, one transaction per batch. Every method is proved against
 * the steps of SaveRuns.
 */
module SaveWorker {
  import opened Prelude
  import opened SaveGroups
  import opened SaveRuns

  const QUEUE_CAPACITY := 32

  // --- positions in a batch ------------------------------------------------------------

  /** Positions of the saves of `v` among the first `n` requests, ascending. */
  function Positions(batch: seq<SaveRequest>, n: nat, v: ViewId): seq<nat>
    requires n <= |batch|
  {
    if n == 0 then []
    else if batch[n - 1].view == v then Positions(batch, n - 1, v) + [n - 1]
    else Positions(batch, n - 1, v)
  }

  lemma {:induction false} PositionsMatchGroup(batch: seq<SaveRequest>, n: nat, v: ViewId)
    requires n <= |batch|
    ensures |Positions(batch, n, v)| == |GroupUpTo(batch, n, v)|
    ensures forall i :: 0 <= i < |Positions(batch, n, v)| ==>
      Positions(batch, n, v)[i] < n && batch[Positions(batch, n, v)[i]] == GroupUpTo(batch, n, v)[i]
      && batch[Positions(batch, n, v)[i]].view == v
  {
    if n > 0 {
      PositionsMatchGroup(batch, n - 1, v);
    }
  }

  /** Where the latest save of `v` sits in the batch. */
  ghost function LatestPosition(batch: seq<SaveRequest>, v: ViewId): nat
    requires Group(batch, v) != []
  {
    PositionsMatchGroup(batch, |batch|, v);
    Positions(batch, |batch|, v)[LatestIndex(Group(batch, v))]
  }

  lemma LatestPositionHolds(batch: seq<SaveRequest>, v: ViewId)
    requires Group(batch, v) != []
    ensures LatestPosition(batch, v) < |batch|
    ensures batch[LatestPosition(batch, v)] == Latest(Group(batch, v))
    ensures batch[LatestPosition(batch, v)].view == v
  {
    PositionsMatchGroup(batch, |batch|, v);
  }

  /** `p` holds the latest save of its view. */
  ghost predicate IsLatest(batch: seq<SaveRequest>, p: nat) {
    p < |batch| && Group(batch, batch[p].view) != [] && LatestPosition(batch, batch[p].view) == p
  }

  ghost predicate AllLatest(batch: seq<SaveRequest>, ps: seq<nat>) {
    forall i :: 0 <= i < |ps| ==> IsLatest(batch, ps[i])
  }

  predicate InBatch(batch: seq<SaveRequest>, ps: seq<nat>) {
    forall i :: 0 <= i < |ps| ==> ps[i] < |batch|
  }

  function ViewsAt(batch: seq<SaveRequest>, ps: seq<nat>): seq<ViewId>
    requires InBatch(batch, ps)
  {
    seq(|ps|, i requires 0 <= i < |ps| && InBatch(batch, ps) => batch[ps[i]].view)
  }

  lemma ViewsAtDistinct(batch: seq<SaveRequest>, ps: seq<nat>)
    requires AllLatest(batch, ps) && NoDuplicates(ps) && InBatch(batch, ps)
    ensures NoDuplicates(ViewsAt(batch, ps))
  {
    forall i, j | 0 <= i < j < |ps| ensures batch[ps[i]].view != batch[ps[j]].view {
      assert IsLatest(batch, ps[i]) && IsLatest(batch, ps[j]);
    }
  }

  predicate Ascending(ps: seq<nat>) {
    forall i, j :: 0 <= i < j < |ps| ==> ps[i] < ps[j]
  }

  function InsertPosition(p: nat, ps: seq<nat>): (out: seq<nat>)
    requires Ascending(ps) && p !in ps
    ensures Ascending(out) && forall q :: q in out <==> q == p || q in ps
  {
    if ps == [] || p < ps[0] then [p] + ps
    else
      assert ps == [ps[0]] + ps[1..];
      var rest := InsertPosition(p, ps[1..]);
      assert forall i :: 0 <= i < |rest| ==> rest[i] in rest;
      [ps[0]] + rest
  }

  // --- grouping and coalescing -----------------------------------------------------------

  method GroupByView(batch: seq<SaveRequest>) returns (byView: map<ViewId, seq<nat>>)
    ensures forall v: ViewId :: v in byView <==> Group(batch, v) != []
    ensures forall v :: v in byView ==> byView[v] == Positions(batch, |batch|, v)
  {
    byView := map[];
    for position := 0 to |batch|
      invariant forall v: ViewId :: v in byView <==> GroupUpTo(batch, position, v) != []
      invariant forall v :: v in byView ==> byView[v] == Positions(batch, position, v)
    {
      var view := batch[position].view;
      PositionsMatchGroup(batch, position, view);
      var earlier := if view in byView then byView[view] else [];
      byView := byView[view := earlier + [position]];
    }
  }

  function HeldKeys(g: seq<SaveRequest>): seq<Key>
    requires g != []
  {
    var k := LatestIndex(g);
    SortKeys(KeysOf(g[..k] + g[k + 1..]))
  }

  predicate IsLeast(s: set<nat>, m: nat) {
    m in s && forall x :: x in s ==> m <= x
  }

  lemma {:induction false} LeastExists(s: set<nat>, x: nat)
    requires x in s
    ensures exists m :: IsLeast(s, m)
  {
    if y: nat :| y in s && y < x {
      LeastExists(s, y);
    } else {
      assert IsLeast(s, x);
    }
  }

  /** One acknowledgement entry per group of withheld and latest keys. */
  function SavedAll(acks: seq<seq<Key>>): seq<Entry> {
    seq(|acks|, i requires 0 <= i < |acks| => Answered(acks[i], None))
  }

  /** The latest position of one group, and the keys withheld behind it. */
  method Supersede(batch: seq<SaveRequest>, v: ViewId, positions: seq<nat>) returns (latest: nat, held: seq<Key>)
    requires Group(batch, v) != [] && positions == Positions(batch, |batch|, v)
    ensures IsLatest(batch, latest) && batch[latest] == Latest(Group(batch, v)) && batch[latest].view == v
    ensures held + [KeyOf(batch[latest])] == AnswerOrder(Group(batch, v)) && held == HeldKeys(Group(batch, v))
  {
    PositionsMatchGroup(batch, |batch|, v);
    LatestPositionHolds(batch, v);
    var g := seq(|positions|, i requires 0 <= i < |positions| => batch[positions[i]]);
    assert g == Group(batch, v);
    latest := positions[LatestIndex(g)];
    held := HeldKeys(g);
  }

  /** The positions still to be written, once the views outside `todo` are settled. */
  ghost predicate Settled(w: Worker, batch: seq<SaveRequest>, todo: set<ViewId>, held: map<nat, seq<Key>>,
        persist: seq<nat>)
  {
    && Ascending(persist)
    && (forall i :: 0 <= i < |persist| ==>
      && IsLatest(batch, persist[i]) && batch[persist[i]].view !in todo
      && !Stale(View(w, batch[persist[i]].view), batch[persist[i]])
      && persist[i] in held && held[persist[i]] == HeldKeys(Group(batch, batch[persist[i]].view)))
    && (forall v: ViewId :: Group(batch, v) != [] && v !in todo && !Stale(View(w, v), Latest(Group(batch, v)))
                            ==> LatestPosition(batch, v) in persist)
  }

  /** The groups acknowledged without a write, once the views outside `todo` are settled. */
  ghost predicate Acknowledged(w: Worker, batch: seq<SaveRequest>, store: Store, todo: set<ViewId>,
        acks: seq<seq<Key>>, stale: seq<ViewId>)
  {
    && NoDuplicates(stale) && HaveGroups(batch, stale)
    && SavedAll(acks) == AnswerViews(w, batch, store, stale)
    && (forall v: ViewId :: v in stale
                            <==> Group(batch, v) != [] && v !in todo && Stale(View(w, v), Latest(Group(batch, v))))
  }

  lemma SettleStale(w: Worker, batch: seq<SaveRequest>, store: Store, todo: set<ViewId>, v: ViewId,
                    acks: seq<seq<Key>>, stale: seq<ViewId>, held: map<nat, seq<Key>>, persist: seq<nat>)
    requires Acknowledged(w, batch, store, todo, acks, stale) && Settled(w, batch, todo, held, persist)
    requires v in todo && Group(batch, v) != [] && Stale(View(w, v), Latest(Group(batch, v)))
    ensures Acknowledged(w, batch, store, todo - {v}, acks + [AnswerOrder(Group(batch, v))], stale + [v])
    ensures Settled(w, batch, todo - {v}, held, persist)
  {
    var next := stale + [v];
    assert SavedAll(acks + [AnswerOrder(Group(batch, v))]) == SavedAll(acks) + [GroupAnswer(w, batch, store, v)];
    assert HaveGroups(batch, next);
    assert AnswerViews(w, batch, store, next) ==
           AnswerViews(w, batch, store, stale) + [GroupAnswer(w, batch, store, v)];
  }

  lemma SettleFresh(w: Worker, batch: seq<SaveRequest>, store: Store, todo: set<ViewId>, v: ViewId, latest: nat,
                    acks: seq<seq<Key>>, stale: seq<ViewId>, held: map<nat, seq<Key>>, persist: seq<nat>)
    requires Acknowledged(w, batch, store, todo, acks, stale) && Settled(w, batch, todo, held, persist)
    requires v in todo && IsLatest(batch, latest) && batch[latest].view == v
    requires batch[latest] == Latest(Group(batch, v)) && !Stale(View(w, v), batch[latest])
    ensures Acknowledged(w, batch, store, todo - {v}, acks, stale)
    ensures latest !in persist
    ensures Settled(w, batch, todo - {v}, held[latest := HeldKeys(Group(batch, v))], InsertPosition(latest, persist))
  {
    FreshKeepsAcks(w, batch, store, todo, v, acks, stale);
    FreshIsNew(w, batch, todo, v, latest, held, persist);
    FreshPersists(w, batch, todo, v, latest, held, persist);
    var out := InsertPosition(latest, persist);
    forall u: ViewId | Group(batch, u) != [] && u !in todo - {v} && !Stale(View(w, u), Latest(Group(batch, u)))
      ensures LatestPosition(batch, u) in out
    {
      if u == v {
        assert latest in out;
      } else {
        assert LatestPosition(batch, u) in persist;
      }
    }
  }

  lemma FreshKeepsAcks(w: Worker, batch: seq<SaveRequest>, store: Store, todo: set<ViewId>, v: ViewId,
                       acks: seq<seq<Key>>, stale: seq<ViewId>)
    requires Acknowledged(w, batch, store, todo, acks, stale)
    requires Group(batch, v) != [] ==> !Stale(View(w, v), Latest(Group(batch, v)))
    ensures Acknowledged(w, batch, store, todo - {v}, acks, stale)
  {
  }

  lemma FreshIsNew(w: Worker, batch: seq<SaveRequest>, todo: set<ViewId>, v: ViewId, latest: nat,
                   held: map<nat, seq<Key>>, persist: seq<nat>)
    requires Settled(w, batch, todo, held, persist) && latest < |batch| && batch[latest].view == v && v in todo
    ensures latest !in persist
  {
  }

  /** Every position in the longer list is latest, outside what is left to do, and has its keys. */
  lemma FreshPersists(w: Worker, batch: seq<SaveRequest>, todo: set<ViewId>, v: ViewId, latest: nat,
                      held: map<nat, seq<Key>>, persist: seq<nat>)
    requires Settled(w, batch, todo, held, persist) && latest !in persist
    requires IsLatest(batch, latest) && batch[latest].view == v && !Stale(View(w, v), batch[latest])
    ensures var out := InsertPosition(latest, persist); var held' := held[latest := HeldKeys(Group(batch, v))];
      && Ascending(out) && latest in out && (forall p :: p in persist ==> p in out)
      && forall i :: 0 <= i < |out| ==>
        && IsLatest(batch, out[i]) && batch[out[i]].view !in todo - {v}
        && !Stale(View(w, batch[out[i]].view), batch[out[i]])
        && out[i] in held' && held'[out[i]] == HeldKeys(Group(batch, batch[out[i]].view))
  {
    var out := InsertPosition(latest, persist);
    forall i | 0 <= i < |out| ensures out[i] == latest || out[i] in persist {
      assert out[i] in out;
    }
  }

  /** What coalescing has decided so far. */
  datatype Plan = Plan(acks: seq<seq<Key>>, held: map<nat, seq<Key>>, persist: seq<nat>)

  ghost predicate Planned(w: Worker, batch: seq<SaveRequest>, store: Store, todo: set<ViewId>, plan: Plan,
        stale: seq<ViewId>)
  {
    Acknowledged(w, batch, store, todo, plan.acks, stale) && Settled(w, batch, todo, plan.held, plan.persist)
  }

  /**
   * A group whose newest sequence already committed is acknowledged as it is; any other
   * leaves its latest position to persist and its other keys withheld.
   */
  method CoalesceView(ghost w: Worker, ghost store: Store, batch: seq<SaveRequest>, v: ViewId, positions: seq<nat>,
                      newest: map<ViewId, nat>, plan: Plan, ghost stale: seq<ViewId>, ghost todo: set<ViewId>)
    returns (next: Plan, ghost stale': seq<ViewId>)
    requires newest == w.newest && v in todo
    requires Group(batch, v) != [] && positions == Positions(batch, |batch|, v)
    requires Planned(w, batch, store, todo, plan, stale)
    ensures Planned(w, batch, store, todo - {v}, next, stale')
  {
    var latest, behind := Supersede(batch, v, positions);
    if v in newest && newest[v] >= batch[latest].sequence {
      SettleStale(w, batch, store, todo, v, plan.acks, stale, plan.held, plan.persist);
      next := plan.(acks := plan.acks + [behind + [KeyOf(batch[latest])]]);
      stale' := stale + [v];
    } else {
      SettleFresh(w, batch, store, todo, v, latest, plan.acks, stale, plan.held, plan.persist);
      next := plan.(held := plan.held[latest := behind], persist := InsertPosition(latest, plan.persist));
      stale' := stale;
    }
  }

  lemma NothingPlanned(w: Worker, batch: seq<SaveRequest>, store: Store, todo: set<ViewId>)
    requires forall v: ViewId :: Group(batch, v) != [] ==> v in todo
    ensures Planned(w, batch, store, todo, Plan([], map[], []), [])
  {
  }

  /** Views are visited in ascending order. */
  method Coalesce(ghost w: Worker, ghost store: Store, batch: seq<SaveRequest>, byView: map<ViewId, seq<nat>>,
        newest: map<ViewId, nat>)
    returns (plan: Plan, ghost stale: seq<ViewId>)
    requires newest == w.newest
    requires forall v: ViewId :: v in byView <==> Group(batch, v) != []
    requires forall v :: v in byView ==> byView[v] == Positions(batch, |batch|, v)
    ensures Planned(w, batch, store, {}, plan, stale)
    ensures Ascending(plan.persist) && AllLatest(batch, plan.persist)
    ensures forall p :: p in plan.persist ==>
      p < |batch| && p in plan.held && plan.held[p] == HeldKeys(Group(batch, batch[p].view))
  {
    plan, stale := Plan([], map[], []), [];
    var todo := byView.Keys;
    NothingPlanned(w, batch, store, todo);
    while todo != {}
      invariant todo <= byView.Keys
      invariant Planned(w, batch, store, todo, plan, stale)
      decreases |todo|
    {
      ghost var some :| some in todo;
      LeastExists(todo, some);
      var v :| v in todo && IsLeast(todo, v);
      plan, stale := CoalesceView(w, store, batch, v, byView[v], newest, plan, stale, todo);
      todo := todo - {v};
    }
  }

  /** Requests that fail the check above the store never reach it. */
  method Validate(batch: seq<SaveRequest>, persist: seq<nat>) returns (invalid: seq<nat>, items: seq<nat>)
    requires Ascending(persist) && InBatch(batch, persist)
    ensures Ascending(invalid) && Ascending(items) && InBatch(batch, invalid) && InBatch(batch, items)
    ensures forall p :: p in invalid ==> p in persist && p < |batch| && batch[p].malformed
    ensures forall p :: p in items ==> p in persist && p < |batch| && !batch[p].malformed
    ensures forall p :: p in persist ==> p in invalid || p in items
  {
    invalid, items := [], [];
    for i := 0 to |persist|
      invariant Ascending(invalid) && Ascending(items) && InBatch(batch, invalid) && InBatch(batch, items)
      invariant forall k :: 0 <= k < |invalid| ==> invalid[k] in persist[..i] && batch[invalid[k]].malformed
      invariant forall k :: 0 <= k < |items| ==> items[k] in persist[..i] && !batch[items[k]].malformed
      invariant forall p :: p in persist[..i] ==> p in invalid || p in items
    {
      assert persist[..i + 1] == persist[..i] + [persist[i]];
      if batch[persist[i]].malformed {
        invalid := invalid + [persist[i]];
      } else {
        items := items + [persist[i]];
      }
    }
    assert persist[..|persist|] == persist;
  }

  /** Positions whose group is fresh, with the keys withheld behind each. */
  ghost predicate Pending(w: Worker, batch: seq<SaveRequest>, held: map<nat, seq<Key>>, ps: seq<nat>) {
    && Ascending(ps) && InBatch(batch, ps)
    && (forall i :: 0 <= i < |ps| ==>
      && IsLatest(batch, ps[i]) && !Stale(View(w, batch[ps[i]].view), batch[ps[i]])
      && ps[i] in held && held[ps[i]] == HeldKeys(Group(batch, batch[ps[i]].view)))
  }

  lemma PendingAnswer(w: Worker, batch: seq<SaveRequest>, store: Store, held: map<nat, seq<Key>>, ps: seq<nat>, i: nat)
    requires Pending(w, batch, held, ps) && i < |ps|
    ensures var p := ps[i];
      Group(batch, batch[p].view) != [] && Latest(Group(batch, batch[p].view)) == batch[p]
      && GroupAnswer(w, batch, store, batch[p].view) ==
         Answered(held[p] + [KeyOf(batch[p])], Rejection(batch[p], store))
      && GroupWrite(batch, store, batch[p].view) == Wrote(batch[p], Rejection(batch[p], store))
  {
    assert IsLatest(batch, ps[i]);
    LatestPositionHolds(batch, batch[ps[i]].view);
  }

  lemma PendingHaveGroups(w: Worker, batch: seq<SaveRequest>, held: map<nat, seq<Key>>, ps: seq<nat>)
    requires Pending(w, batch, held, ps)
    ensures HaveGroups(batch, ViewsAt(batch, ps)) && NoDuplicates(ViewsAt(batch, ps))
  {
    ViewsAtDistinct(batch, ps);
    forall i | 0 <= i < |ps| ensures Group(batch, batch[ps[i]].view) != [] {
      assert IsLatest(batch, ps[i]);
    }
  }

  /** The maps after the groups at `ps` were refused or committed one by one. */
  ghost predicate FailedAfter(before: map<ViewId, Failure>, after: map<ViewId, Failure>,
        batch: seq<SaveRequest>, store: Store, views: seq<ViewId>)
  {
    forall v: ViewId :: Lookup(after, v) ==
      if v in views && Group(batch, v) != [] then Rejection(Latest(Group(batch, v)), store) else Lookup(before, v)
  }

  ghost predicate NewestAfter(before: map<ViewId, nat>, after: map<ViewId, nat>, batch: seq<SaveRequest>,
        store: Store, views: seq<ViewId>)
  {
    forall v: ViewId :: Lookup(after, v) ==
      if v in views && Group(batch, v) != [] && Rejection(Latest(Group(batch, v)), store).None?
      then Some(Latest(Group(batch, v)).sequence) else Lookup(before, v)
  }

  ghost predicate DurableAfter(before: map<ViewId, SaveRequest>, after: map<ViewId, SaveRequest>,
        batch: seq<SaveRequest>, store: Store, views: seq<ViewId>)
  {
    forall v: ViewId :: Lookup(after, v) ==
      if v in views && Group(batch, v) != [] && Rejection(Latest(Group(batch, v)), store).None?
      then Some(Latest(Group(batch, v))) else Lookup(before, v)
  }

  lemma FailedStep(before: map<ViewId, Failure>, mid: map<ViewId, Failure>, after: map<ViewId, Failure>,
                   batch: seq<SaveRequest>, store: Store, views: seq<ViewId>, v: ViewId)
    requires FailedAfter(before, mid, batch, store, views) && Group(batch, v) != []
    requires after == match Rejection(Latest(Group(batch, v)), store)
      case None => mid - {v} case Some(cause) => mid[v := cause]
    ensures FailedAfter(before, after, batch, store, views + [v])
  {
  }

  lemma NewestStep(before: map<ViewId, nat>, mid: map<ViewId, nat>, after: map<ViewId, nat>,
                   batch: seq<SaveRequest>, store: Store, views: seq<ViewId>, v: ViewId)
    requires NewestAfter(before, mid, batch, store, views) && v !in views && Group(batch, v) != []
    requires after ==
      if Rejection(Latest(Group(batch, v)), store).None? then mid[v := Latest(Group(batch, v)).sequence] else mid
    ensures NewestAfter(before, after, batch, store, views + [v])
  {
  }

  /** A list without duplicates, read one element further. */
  lemma OneFurther(views: seq<ViewId>, i: nat)
    requires i < |views|
    ensures views[..i + 1] == views[..i] + [views[i]]
    ensures NoDuplicates(views) ==> views[i] !in views[..i]
  {
  }

  lemma DurableAtFirst(before: map<ViewId, SaveRequest>, batch: seq<SaveRequest>, store: Store, views: seq<ViewId>)
    ensures DurableAfter(before, before, batch, store, views[..0])
  {
  }

  lemma DurableStep(before: map<ViewId, SaveRequest>, mid: map<ViewId, SaveRequest>, after: map<ViewId, SaveRequest>,
                    batch: seq<SaveRequest>, store: Store, views: seq<ViewId>, v: ViewId)
    requires DurableAfter(before, mid, batch, store, views) && v !in views && Group(batch, v) != []
    requires after == if Rejection(Latest(Group(batch, v)), store).None? then mid[v := Latest(Group(batch, v))] else mid
    ensures DurableAfter(before, after, batch, store, views + [v])
  {
  }

  lemma PendingViews(w: Worker, batch: seq<SaveRequest>, store: Store, plan: Plan, stale: seq<ViewId>,
        ps: seq<nat>, v: ViewId)
    requires Acknowledged(w, batch, store, {}, plan.acks, stale) && Pending(w, batch, plan.held, ps)
    requires v in ViewsAt(batch, ps)
    ensures Group(batch, v) != [] && v !in stale && !Stale(View(w, v), Latest(Group(batch, v)))
    ensures exists p :: p in ps && p < |batch| && batch[p] == Latest(Group(batch, v))
  {
    var i :| 0 <= i < |ps| && ViewsAt(batch, ps)[i] == v;
    PendingAnswer(w, batch, store, plan.held, ps, i);
    assert ps[i] in ps;
  }

  lemma PositionListed(batch: seq<SaveRequest>, ps: seq<nat>, p: nat)
    requires InBatch(batch, ps) && p in ps && p < |batch|
    ensures batch[p].view in ViewsAt(batch, ps)
  {
    var i :| 0 <= i < |ps| && ps[i] == p;
    assert ViewsAt(batch, ps)[i] == batch[p].view;
  }

  /** `invalid` and `items` split the planned positions by the check above the store. */
  ghost predicate Partition(batch: seq<SaveRequest>, persist: seq<nat>, invalid: seq<nat>, items: seq<nat>) {
    && Malformed(batch, invalid) && WellFormed(batch, items)
    && (forall p :: p in persist ==> p in invalid || p in items)
  }

  ghost predicate Malformed(batch: seq<SaveRequest>, ps: seq<nat>) {
    forall p :: p in ps ==> p < |batch| && batch[p].malformed
  }

  ghost predicate WellFormed(batch: seq<SaveRequest>, ps: seq<nat>) {
    forall p :: p in ps ==> p < |batch| && !batch[p].malformed
  }

  /** Every group is settled, refused above the store, or left to it. */
  ghost predicate Phases(w: Worker, batch: seq<SaveRequest>, store: Store, plan: Plan, stale: seq<ViewId>,
        invalid: seq<nat>, items: seq<nat>)
  {
    && Planned(w, batch, store, {}, plan, stale) && Partition(batch, plan.persist, invalid, items)
    && Pending(w, batch, plan.held, invalid) && Pending(w, batch, plan.held, items)
  }

  /** Coalescing and the check above the store. */
  method Prepare(ghost w: Worker, ghost store: Store, batch: seq<SaveRequest>, newest: map<ViewId, nat>)
    returns (plan: Plan, invalid: seq<nat>, items: seq<nat>, ghost stale: seq<ViewId>)
    requires newest == w.newest
    ensures Phases(w, batch, store, plan, stale, invalid, items)
  {
    var byView := GroupByView(batch);
    plan, stale := Coalesce(w, store, batch, byView, newest);
    invalid, items := Validate(batch, plan.persist);
    PlannedIsPending(w, batch, store, plan, stale, invalid);
    PlannedIsPending(w, batch, store, plan, stale, items);
  }

  lemma PhasesComplete(w: Worker, batch: seq<SaveRequest>, store: Store, plan: Plan, stale: seq<ViewId>,
        invalid: seq<nat>, items: seq<nat>, v: ViewId)
    requires Planned(w, batch, store, {}, plan, stale) && Partition(batch, plan.persist, invalid, items)
    requires InBatch(batch, invalid) && InBatch(batch, items)
    requires Group(batch, v) != []
    ensures v in stale || v in ViewsAt(batch, invalid) || v in ViewsAt(batch, items)
  {
    if !Stale(View(w, v), Latest(Group(batch, v))) {
      var p := LatestPosition(batch, v);
      LatestPositionHolds(batch, v);
      assert p in plan.persist;
      if p in invalid {
        PositionListed(batch, invalid, p);
      } else {
        PositionListed(batch, items, p);
      }
    }
  }

  lemma PhasesCover(w: Worker, batch: seq<SaveRequest>, store: Store, plan: Plan, stale: seq<ViewId>,
        invalid: seq<nat>, items: seq<nat>)
    requires Planned(w, batch, store, {}, plan, stale) && Partition(batch, plan.persist, invalid, items)
    requires Pending(w, batch, plan.held, invalid) && Pending(w, batch, plan.held, items)
    ensures CoversBatch(batch, stale + ViewsAt(batch, invalid) + ViewsAt(batch, items))
    ensures HaveGroups(batch, stale + ViewsAt(batch, invalid)) && HaveGroups(batch, ViewsAt(batch, items))
    ensures forall v :: v in stale + ViewsAt(batch, invalid) ==> Quiet(w, batch, v)
    ensures forall v :: v in ViewsAt(batch, items) ==> !Quiet(w, batch, v)
    ensures forall v :: v in ViewsAt(batch, invalid) ==> v !in stale && Latest(Group(batch, v)).malformed
  {
    PendingHaveGroups(w, batch, plan.held, invalid);
    PendingHaveGroups(w, batch, plan.held, items);
    var vi, vw := ViewsAt(batch, invalid), ViewsAt(batch, items);
    forall v | v in vi ensures Quiet(w, batch, v) && v !in stale && Latest(Group(batch, v)).malformed {
      PendingViews(w, batch, store, plan, stale, invalid, v);
    }
    forall v | v in vw ensures Group(batch, v) != [] && !Quiet(w, batch, v) && v !in stale {
      PendingViews(w, batch, store, plan, stale, items, v);
    }
    NoDuplicatesJoin(stale, vi);
    NoDuplicatesJoin(stale + vi, vw);
    forall v: ViewId | Group(batch, v) != [] ensures v in stale + vi + vw {
      PhasesComplete(w, batch, store, plan, stale, invalid, items, v);
    }
  }

  /** The three phases together are one batch step. */
  lemma PhasesMakeStep(w: Worker, batch: seq<SaveRequest>, store: Store, plan: Plan, stale: seq<ViewId>,
        invalid: seq<nat>, items: seq<nat>,
                       mid: map<ViewId, Failure>, w': Worker)
    requires Phases(w, batch, store, plan, stale, invalid, items)
    requires FailedAfter(w.failed, mid, batch, store, ViewsAt(batch, invalid))
    requires FailedAfter(mid, w'.failed, batch, store, ViewsAt(batch, items))
    requires NewestAfter(w.newest, w'.newest, batch, store, ViewsAt(batch, items))
    requires DurableAfter(w.durable, w'.durable, batch, store, ViewsAt(batch, items))
    requires w'.recipeFailure == w.recipeFailure && !w'.stopped
    requires HaveGroups(batch, ViewsAt(batch, invalid)) && HaveGroups(batch, ViewsAt(batch, items))
    requires w'.log == w.log + SavedAll(plan.acks) + AnswerViews(w, batch, store, ViewsAt(batch, invalid))
                       + WriteViews(batch, store, ViewsAt(batch, items))
                       + AnswerViews(w, batch, store, ViewsAt(batch, items))
    ensures BatchNext(w, batch, store, stale + ViewsAt(batch, invalid), ViewsAt(batch, items), w')
  {
    PhasesCover(w, batch, store, plan, stale, invalid, items);
    AnswersOfTwo(w, batch, store, stale, ViewsAt(batch, invalid));
    Reassociate(w.log, AnswerViews(w, batch, store, stale), AnswerViews(w, batch, store, ViewsAt(batch, invalid)));
    forall v: ViewId ensures View(w', v) == SaveGroup(View(w, v), Group(batch, v), store) {
      PhaseOf(w, batch, store, plan, stale, ViewsAt(batch, invalid), ViewsAt(batch, items), v);
      PhasesSettleView(w, batch, store, ViewsAt(batch, invalid), ViewsAt(batch, items), mid, w', v);
    }
  }

  lemma AnswersOfTwo(w: Worker, batch: seq<SaveRequest>, store: Store, a: seq<ViewId>, b: seq<ViewId>)
    requires HaveGroups(batch, a) && HaveGroups(batch, b) && HaveGroups(batch, a + b)
    ensures AnswerViews(w, batch, store, a + b) == AnswerViews(w, batch, store, a) + AnswerViews(w, batch, store, b)
  {
    var x, y := AnswerViews(w, batch, store, a), AnswerViews(w, batch, store, b);
    var xy := AnswerViews(w, batch, store, a + b);
    forall i | 0 <= i < |xy| ensures xy[i] == (x + y)[i] {
      assert (a + b)[i] == if i < |a| then a[i] else b[i - |a|];
      assert xy[i] == GroupAnswer(w, batch, store, (a + b)[i]);
      assert i < |a| ==> x[i] == GroupAnswer(w, batch, store, a[i]);
      assert i >= |a| ==> y[i - |a|] == GroupAnswer(w, batch, store, b[i - |a|]);
    }
    assert |xy| == |x + y|;
  }

  /** After all phases a view is where its group leaves it. */
  lemma PhasesSettleView(w: Worker, batch: seq<SaveRequest>, store: Store, vi: seq<ViewId>, vw: seq<ViewId>,
                         mid: map<ViewId, Failure>, w': Worker, v: ViewId)
    requires FailedAfter(w.failed, mid, batch, store, vi) && FailedAfter(mid, w'.failed, batch, store, vw)
    requires NewestAfter(w.newest, w'.newest, batch, store, vw) && DurableAfter(w.durable, w'.durable, batch, store, vw)
    requires var g := Group(batch, v);
      if v in vw then g != [] && !Quiet(w, batch, v) && v !in vi
      else if v in vi then g != [] && Latest(g).malformed && !Stale(View(w, v), Latest(g))
      else g == [] || Stale(View(w, v), Latest(g))
    ensures View(w', v) == SaveGroup(View(w, v), Group(batch, v), store)
  {
  }

  /** Every view of the batch is in one phase, the one its group calls for. */
  lemma PhaseOf(w: Worker, batch: seq<SaveRequest>, store: Store, plan: Plan, stale: seq<ViewId>,
        vi: seq<ViewId>, vw: seq<ViewId>, v: ViewId)
    requires Acknowledged(w, batch, store, {}, plan.acks, stale)
    requires CoversBatch(batch, stale + vi + vw) && HaveGroups(batch, vi) && HaveGroups(batch, vw)
    requires forall u :: u in vw ==> !Quiet(w, batch, u)
    requires forall i :: 0 <= i < |vi| ==> vi[i] !in stale && Latest(Group(batch, vi[i])).malformed
    ensures var g := Group(batch, v);
      if v in vw then g != [] && !Quiet(w, batch, v) && v !in vi
      else if v in vi then g != [] && Latest(g).malformed && !Stale(View(w, v), Latest(g))
      else g == [] || Stale(View(w, v), Latest(g))
  {
    if v in vi {
      assert v in stale + vi;
    } else if v !in vw && Group(batch, v) != [] {
      assert v in stale + vi + vw;
    }
  }

  /** The store's verdict on each of these requests. */
  ghost predicate Judged(outcomes: seq<Option<Failure>>, store: Store, batch: seq<SaveRequest>, items: seq<nat>)
    requires |outcomes| <= |items| && InBatch(batch, items)
  {
    forall i :: 0 <= i < |outcomes| ==> outcomes[i] == store(batch[items[i]])
  }

  lemma JudgedNext(outcomes: seq<Option<Failure>>, store: Store, batch: seq<SaveRequest>, items: seq<nat>)
    requires |outcomes| < |items| && InBatch(batch, items) && Judged(outcomes, store, batch, items)
    ensures Judged(outcomes + [store(batch[items[|outcomes|]])], store, batch, items)
  {
  }

  /** How many commands draining took from the channel behind the first save. */
  function Taken(batch: seq<SaveRequest>, stash: Option<Command>): int {
    |batch| - 1 + if stash.Some? then 1 else 0
  }

  /**
   * A batch holds every save visible behind its first one, up to its capacity or another command: `arrived`
   * commands were visible there, and `rest` is what waits behind the batch.
   */
  predicate FullyDrained(batch: seq<SaveRequest>, rest: seq<Command>, arrived: nat) {
    |batch| == QUEUE_CAPACITY || rest == [] || !rest[0].Save? || |batch| - 1 == arrived
  }

  /** Step `n` of a service of `all`: with this verdict of the store and this many commands visible. */
  ghost predicate ServedWith(all: seq<Command>, steps: seq<Step>, n: nat, store: Store, arrived: nat)
    requires n < |steps|
  {
    steps[n].SaveBatch? ==>
      && steps[n].store == store && |Queue(steps[..n + 1])| <= |all|
      && FullyDrained(steps[n].batch, all[|Queue(steps[..n + 1])|..], arrived)
  }

  ghost predicate Served(all: seq<Command>, steps: seq<Step>, stores: seq<Store>, arrivals: seq<nat>)
    requires |steps| <= |stores| == |arrivals|
  {
    forall n :: 0 <= n < |steps| ==> ServedWith(all, steps, n, stores[n], arrivals[n])
  }

  lemma ServedNext(all: seq<Command>, steps: seq<Step>, step: Step, rest: seq<Command>, stores: seq<Store>,
        arrivals: seq<nat>)
    requires |steps| < |stores| == |arrivals| && Served(all, steps, stores, arrivals)
    requires all == Queue(steps) + (Consumed(step) + rest)
    requires step.SaveBatch? ==>
      step.store == stores[|steps|] && FullyDrained(step.batch, rest, arrivals[|steps|])
    ensures Served(all, steps + [step], stores, arrivals) && all == Queue(steps + [step]) + rest
  {
    var steps' := steps + [step];
    assert steps'[..|steps| + 1] == steps' && steps'[..|steps|] == steps;
    Reassociate(Queue(steps), Consumed(step), rest);
    assert all[|Queue(steps')|..] == rest;
    forall n | 0 <= n < |steps| ensures ServedWith(all, steps', n, stores[n], arrivals[n]) {
      assert steps'[..n + 1] == steps[..n + 1];
      assert ServedWith(all, steps, n, stores[n], arrivals[n]);
    }
  }

  lemma RunNext(states: seq<Worker>, steps: seq<Step>, step: Step, state: Worker)
    requires Run(states, steps) && Next(states[|steps|], step, state)
    ensures Run(states + [state], steps + [step])
  {
  }

  // --- the worker ------------------------------------------------------------------------

  class MemoryWorker {
    var queue: seq<Command>
    var stash: Option<Command>
    var newest: map<ViewId, nat>
    var failed: map<ViewId, Failure>
    var durable: map<ViewId, SaveRequest>
    var recipeFailure: Option<Failure>
    var stopped: bool
    ghost var log: seq<Entry>

    constructor (queue: seq<Command>)
      ensures State() == INITIAL && Waiting() == queue
    {
      this.queue, stash := queue, None;
      newest, failed, durable, recipeFailure, stopped, log := map[], map[], map[], None, false, [];
    }

    ghost function State(): Worker
      reads this
    {
      Worker(newest, failed, durable, recipeFailure, stopped, log)
    }

    /** Everything still to be served: the stashed command, then the channel. */
    function Waiting(): seq<Command>
      reads this
    {
      (if stash.Some? then [stash.value] else []) + queue
    }

    /**
     * Drains the saves queued directly behind `first`, of which `arrived` are visible;
     * the first other command is stashed so that it keeps its place. It stops only at that
     * command, a full batch, or the end of what is visible.
     */
    method Drain(first: SaveRequest, arrived: nat) returns (batch: seq<SaveRequest>)
      requires stash.None?
      modifies this`queue, this`stash
      ensures 1 <= |batch| <= QUEUE_CAPACITY
      ensures [Save(first)] + old(queue) == Saves(batch) + Waiting()
      ensures stash.Some? ==> !stash.value.Save?
      ensures Taken(batch, stash) <= arrived
      ensures |batch| == QUEUE_CAPACITY || stash.Some? || queue == [] || Taken(batch, stash) == arrived
    {
      batch := [first];
      var visible := arrived;
      while |batch| < QUEUE_CAPACITY && visible > 0 && queue != [] && stash.None?
        invariant 1 <= |batch| <= QUEUE_CAPACITY
        invariant [Save(first)] + old(queue) == Saves(batch) + Waiting()
        invariant stash.Some? ==> !stash.value.Save?
        invariant Taken(batch, stash) + visible == arrived
        decreases visible
      {
        var command := queue[0];
        visible := visible - 1;
        if command.Save? {
          assert Saves(batch + [command.request]) == Saves(batch) + [command];
          batch := batch + [command.request];
        } else {
          stash := Some(command);
        }
        queue := queue[1..];
      }
    }

    method FailOne(ghost w: Worker, ghost store: Store, batch: seq<SaveRequest>, held: map<nat, seq<Key>>,
          invalid: seq<nat>, i: nat,
                   ghost before: map<ViewId, Failure>, ghost views: seq<ViewId>)
      requires Pending(w, batch, held, invalid) && i < |invalid| && batch[invalid[i]].malformed
      requires views == ViewsAt(batch, invalid) && HaveGroups(batch, views)
      requires FailedAfter(before, failed, batch, store, views[..i])
      modifies this`failed, this`log
      ensures FailedAfter(before, failed, batch, store, views[..i + 1])
      ensures log == old(log) + [AnswerViews(w, batch, store, views)[i]]
    {
      var p := invalid[i];
      PendingAnswer(w, batch, store, held, invalid, i);
      FailedStep(before, failed, failed[batch[p].view := MALFORMED], batch, store, views[..i], batch[p].view);
      OneFurther(views, i);
      failed := failed[batch[p].view := MALFORMED];
      log := log + [Answered(held[p] + [KeyOf(batch[p])], Some(MALFORMED))];
    }

    /** Malformed requests fail, and the keys withheld behind them fail with them. */
    method FailInvalid(ghost w: Worker, ghost store: Store, batch: seq<SaveRequest>, held: map<nat, seq<Key>>,
          invalid: seq<nat>)
      requires Pending(w, batch, held, invalid)
      requires Malformed(batch, invalid)
      modifies this`failed, this`log
      ensures FailedAfter(old(failed), failed, batch, store, ViewsAt(batch, invalid))
      ensures HaveGroups(batch, ViewsAt(batch, invalid))
      ensures log == old(log) + AnswerViews(w, batch, store, ViewsAt(batch, invalid))
    {
      PendingHaveGroups(w, batch, held, invalid);
      ghost var views := ViewsAt(batch, invalid);
      ghost var answers := AnswerViews(w, batch, store, views);
      for i := 0 to |invalid|
        invariant FailedAfter(old(failed), failed, batch, store, views[..i])
        invariant log == old(log) + answers[..i]
      {
        assert invalid[i] in invalid;
        FailOne(w, store, batch, held, invalid, i, old(failed), views);
        ExtendPrefixByOne(old(log), answers, i);
      }
      assert views[..|invalid|] == views && answers[..|invalid|] == answers;
    }

    method CommitOne(ghost w: Worker, store: Store, batch: seq<SaveRequest>, ghost held: map<nat, seq<Key>>,
          items: seq<nat>, i: nat,
                     ghost before: map<ViewId, SaveRequest>, ghost views: seq<ViewId>)
      returns (outcome: Option<Failure>)
      requires Pending(w, batch, held, items) && i < |items| && !batch[items[i]].malformed
      requires views == ViewsAt(batch, items) && HaveGroups(batch, views) && NoDuplicates(views)
      requires DurableAfter(before, durable, batch, store, views[..i])
      modifies this`durable, this`log
      ensures outcome == store(batch[items[i]])
      ensures DurableAfter(before, durable, batch, store, views[..i + 1])
      ensures log == old(log) + [WriteViews(batch, store, views)[i]]
    {
      var p := items[i];
      PendingAnswer(w, batch, store, held, items, i);
      outcome := store(batch[p]);
      OneFurther(views, i);
      assert batch[p].view == views[i];
      DurableStep(before, durable, if outcome.None? then durable[batch[p].view := batch[p]] else durable,
                  batch, store, views[..i], batch[p].view);
      if outcome.None? {
        durable := durable[batch[p].view := batch[p]];
      }
      log := log + [Wrote(batch[p], outcome)];
    }

    /** One transaction over the surviving requests; a refused item leaves its row alone. */
    method CommitItems(ghost w: Worker, store: Store, batch: seq<SaveRequest>, ghost held: map<nat, seq<Key>>,
          items: seq<nat>)
      returns (outcomes: seq<Option<Failure>>)
      requires Pending(w, batch, held, items)
      requires WellFormed(batch, items)
      modifies this`durable, this`log
      ensures |outcomes| == |items| && Judged(outcomes, store, batch, items)
      ensures DurableAfter(old(durable), durable, batch, store, ViewsAt(batch, items))
      ensures HaveGroups(batch, ViewsAt(batch, items))
      ensures log == old(log) + WriteViews(batch, store, ViewsAt(batch, items))
    {
      PendingHaveGroups(w, batch, held, items);
      ghost var views := ViewsAt(batch, items);
      ghost var writes := WriteViews(batch, store, views);
      outcomes := [];
      DurableAtFirst(durable, batch, store, views);
      for i := 0 to |items|
        invariant |outcomes| == i && Judged(outcomes, store, batch, items)
        invariant DurableAfter(old(durable), durable, batch, store, views[..i])
        invariant log == old(log) + writes[..i]
      {
        assert items[i] in items;
        var outcome := CommitOne(w, store, batch, held, items, i, old(durable), views);
        JudgedNext(outcomes, store, batch, items);
        outcomes := outcomes + [outcome];
        ExtendPrefixByOne(old(log), writes, i);
      }
      FullPrefix(views);
      FullPrefix(writes);
    }

    method AnswerOne(ghost w: Worker, ghost store: Store, batch: seq<SaveRequest>, held: map<nat, seq<Key>>,
          items: seq<nat>, i: nat, outcome: Option<Failure>,
                     ghost before: Worker, ghost views: seq<ViewId>)
      requires Pending(w, batch, held, items) && i < |items| && !batch[items[i]].malformed
      requires outcome == store(batch[items[i]])
      requires views == ViewsAt(batch, items) && HaveGroups(batch, views) && NoDuplicates(views)
      requires NewestAfter(before.newest, newest, batch, store, views[..i])
      requires FailedAfter(before.failed, failed, batch, store, views[..i])
      modifies this`newest, this`failed, this`log
      ensures NewestAfter(before.newest, newest, batch, store, views[..i + 1])
      ensures FailedAfter(before.failed, failed, batch, store, views[..i + 1])
      ensures log == old(log) + [AnswerViews(w, batch, store, views)[i]]
    {
      var p := items[i];
      var view := batch[p].view;
      PendingAnswer(w, batch, store, held, items, i);
      ghost var was := State();
      match outcome {
        case None =>
          newest := newest[view := batch[p].sequence];
          failed := failed - {view};
        case Some(cause) =>
          failed := failed[view := cause];
      }
      OneFurther(views, i);
      assert view == views[i];
      FailedStep(before.failed, was.failed, failed, batch, store, views[..i], view);
      NewestStep(before.newest, was.newest, newest, batch, store, views[..i], view);
      log := log + [Answered(held[p] + [KeyOf(batch[p])], outcome)];
    }

    /** Only now, with its replacement's fate known, is each withheld key answered. */
    method Acknowledge(ghost w: Worker, ghost store: Store, batch: seq<SaveRequest>, held: map<nat, seq<Key>>,
          items: seq<nat>, outcomes: seq<Option<Failure>>)
      requires Pending(w, batch, held, items)
      requires WellFormed(batch, items)
      requires |outcomes| == |items| && Judged(outcomes, store, batch, items)
      modifies this`newest, this`failed, this`log
      ensures NewestAfter(old(newest), newest, batch, store, ViewsAt(batch, items))
      ensures FailedAfter(old(failed), failed, batch, store, ViewsAt(batch, items))
      ensures HaveGroups(batch, ViewsAt(batch, items))
      ensures log == old(log) + AnswerViews(w, batch, store, ViewsAt(batch, items))
    {
      PendingHaveGroups(w, batch, held, items);
      ghost var before := State();
      ghost var views := ViewsAt(batch, items);
      ghost var answers := AnswerViews(w, batch, store, views);
      for i := 0 to |items|
        invariant NewestAfter(before.newest, newest, batch, store, views[..i])
        invariant FailedAfter(before.failed, failed, batch, store, views[..i])
        invariant log == before.log + answers[..i]
      {
        assert items[i] in items;
        AnswerOne(w, store, batch, held, items, i, outcomes[i], before, views);
        ExtendPrefixByOne(before.log, answers, i);
      }
      FullPrefix(views);
      FullPrefix(answers);
    }

    /** Persists a drained batch and answers it. */
    method Persist(batch: seq<SaveRequest>, store: Store) returns (ghost quiet: seq<ViewId>, ghost written: seq<ViewId>)
      requires !stopped
      modifies this`newest, this`failed, this`durable, this`log
      ensures BatchNext(old(State()), batch, store, quiet, written, State())
    {
      ghost var w := State();
      var plan, invalid, items, stale := Prepare(w, store, batch, newest);
      log := log + SavedAll(plan.acks);
      FailInvalid(w, store, batch, plan.held, invalid);
      ghost var mid := failed;
      var outcomes := CommitItems(w, store, batch, plan.held, items);
      Acknowledge(w, store, batch, plan.held, items, outcomes);
      quiet, written := stale + ViewsAt(batch, invalid), ViewsAt(batch, items);
      PhasesMakeStep(w, batch, store, plan, stale, invalid, items, mid, State());
    }

    /** The failure a Flush reports: a plain refusal only when nothing worse is recorded. */
    method FlushFailure() returns (failure: Failure)
      requires failed != map[]
      ensures failure in failed.Values
      ensures failure.refusal ==> forall v :: v in failed ==> failed[v].refusal
    {
      var todo := failed.Keys;
      assert todo != {};
      var first :| first in todo;
      failure := failed[first];
      while todo != {}
        invariant todo <= failed.Keys
        invariant failure in failed.Values
        invariant failure.refusal ==> forall v :: v in failed && v !in todo ==> failed[v].refusal
        decreases |todo|
      {
        var v :| v in todo;
        if !failed[v].refusal {
          failure := failed[v];
          return;
        }
        todo := todo - {v};
      }
    }

    /** Serves the next command, or the batch it starts. */
    method ServeNext(store: Store, arrived: nat) returns (ghost step: Step)
      requires !stopped && Waiting() != []
      requires stash.Some? ==> !stash.value.Save?
      modifies this
      ensures Next(old(State()), step, State())
      ensures old(Waiting()) == Consumed(step) + Waiting()
      ensures stash.Some? ==> !stash.value.Save?
      ensures step.SaveBatch? ==> step.store == store && FullyDrained(step.batch, Waiting(), arrived)
    {
      var command;
      if stash.Some? {
        command := stash.value;
        stash := None;
      } else {
        command := queue[0];
        queue := queue[1..];
      }
      assert old(Waiting()) == [command] + queue;
      match command {
        case Save(request) =>
          var batch := Drain(request, arrived);
          ghost var quiet, written := Persist(batch, store);
          step := SaveBatch(batch, store, quiet, written);
        case Recipe(failure) =>
          recipeFailure := failure;
          log := log + [RecipeSettled(failure)];
          step := Serve(command, None);
        case Query(_) =>
          step := Serve(command, None);
        case Flush =>
          var reply := None;
          if recipeFailure.Some? {
            reply := recipeFailure;
          } else if failed != map[] {
            var failure := FlushFailure();
            reply := Some(failure);
          }
          log := log + [FlushReplied(reply)];
          step := Serve(command, reply);
        case Stop =>
          stopped := true;
          step := Serve(command, None);
      }
    }

    /**
     * The worker's loop from a fresh start: until Stop, or until the environment's verdicts
     * (`stores`) and queue visibility (`arrivals`) are used up. Its history is a run, and
     * the commands it consumed and those still waiting make up the original queue.
     */
    method Loop(stores: seq<Store>, arrivals: seq<nat>) returns (ghost states: seq<Worker>, ghost steps: seq<Step>)
      requires State() == INITIAL && stash.None?
      requires |stores| == |arrivals|
      modifies this
      ensures Run(states, steps) && states[|steps|] == State()
      ensures Queue(steps) + Waiting() == old(Waiting())
      ensures Waiting() == [] || stopped || |steps| == |stores|
      ensures |steps| <= |stores| && Served(old(Waiting()), steps, stores, arrivals)
    {
      states, steps := [State()], [];
      var served := 0;
      while Waiting() != [] && !stopped && served < |stores|
        invariant Run(states, steps) && states[|steps|] == State() && |steps| == served <= |stores|
        invariant Queue(steps) + Waiting() == old(Waiting())
        invariant stash.Some? ==> !stash.value.Save?
        invariant Served(old(Waiting()), steps, stores, arrivals)
        decreases |stores| - served
      {
        var step := ServeNext(stores[served], arrivals[served]);
        ServedNext(old(Waiting()), steps, step, Waiting(), stores, arrivals);
        RunNext(states, steps, step, State());
        served := served + 1;
        states, steps := states + [State()], steps + [step];
      }
    }
  }

  lemma PlannedIsPending(w: Worker, batch: seq<SaveRequest>, store: Store, plan: Plan, stale: seq<ViewId>, ps: seq<nat>)
    requires Planned(w, batch, store, {}, plan, stale)
    requires Ascending(ps) && forall p :: p in ps ==> p in plan.persist
    ensures Pending(w, batch, plan.held, ps)
  {
    forall i | 0 <= i < |ps|
      ensures IsLatest(batch, ps[i]) && !Stale(View(w, batch[ps[i]].view), batch[ps[i]])
      ensures ps[i] in plan.held && plan.held[ps[i]] == HeldKeys(Group(batch, batch[ps[i]].view))
    {
      assert ps[i] in plan.persist;
      var k :| 0 <= k < |plan.persist| && plan.persist[k] == ps[i];
    }
  }
}
