/**
 * What one view sees of the durable save worker: the sequence guard, one save at a
 * time, and the coalesced group that a drained batch makes of the saves of that view.
 */
module SaveGroups {
  import opened Prelude

  type ViewId = nat
  type SourceId = nat

  /** A failure message; `refusal` marks a degraded-store refusal. */
  datatype Failure = Failure(message: string, refusal: bool)

  /** `malformed` is the verdict of the bookmark and source-id check above the store. */
  datatype SaveRequest = SaveRequest(source: SourceId, view: ViewId, sequence: nat, content: string, malformed: bool)

  /** What an acknowledgement names. */
  datatype Key = Key(source: SourceId, view: ViewId, sequence: nat)

  /** The store as an oracle: no failure, or the reason this write was refused. */
  type Store = SaveRequest -> Option<Failure>

  const MALFORMED := Failure(
    "memory autosave: stored data is invalid: bookmark source does not match the working view", false)

  /** One view's share of the worker: newest committed sequence, unrecovered failure, durable row. */
  datatype ViewState = ViewState(newest: Option<nat>, failed: Option<Failure>, durable: Option<SaveRequest>)

  function KeyOf(r: SaveRequest): Key {
    Key(r.source, r.view, r.sequence)
  }

  function KeysOf(g: seq<SaveRequest>): seq<Key> {
    seq(|g|, i requires 0 <= i < |g| => KeyOf(g[i]))
  }

  function Rejection(r: SaveRequest, store: Store): Option<Failure> {
    if r.malformed then Some(MALFORMED) else store(r)
  }

  /** The newest guard: a sequence at or below one that already committed. */
  predicate Stale(vs: ViewState, r: SaveRequest) {
    vs.newest.Some? && vs.newest.value >= r.sequence
  }

  /** The worker that serves one save at a time. */
  function SaveOne(vs: ViewState, r: SaveRequest, store: Store): ViewState {
    if Stale(vs, r) then vs
    else match Rejection(r, store)
      case None => ViewState(Some(r.sequence), None, Some(r))
      case Some(cause) => vs.(failed := Some(cause))
  }

  function SaveEach(vs: ViewState, g: seq<SaveRequest>, store: Store): ViewState {
    if g == [] then vs else SaveOne(SaveEach(vs, g[..|g| - 1], store), g[|g| - 1], store)
  }

  /** Position of the highest sequence; the last one wins a tie. */
  function LatestIndex(g: seq<SaveRequest>): (k: nat)
    requires g != []
    ensures k < |g|
  {
    if |g| == 1 then 0
    else
      var k := LatestIndex(g[..|g| - 1]);
      if g[|g| - 1].sequence >= g[k].sequence then |g| - 1 else k
  }

  lemma {:induction false} LatestIsHighest(g: seq<SaveRequest>)
    requires g != []
    ensures forall i :: 0 <= i < |g| ==> g[i].sequence <= Latest(g).sequence
    ensures forall i :: LatestIndex(g) < i < |g| ==> g[i].sequence < Latest(g).sequence
    ensures Latest(g) in g
  {
    if |g| > 1 {
      LatestIsHighest(g[..|g| - 1]);
    }
  }

  function Latest(g: seq<SaveRequest>): SaveRequest
    requires g != []
  {
    g[LatestIndex(g)]
  }

  /** A drained group: only its latest request reaches the guard and the store. */
  function SaveGroup(vs: ViewState, g: seq<SaveRequest>, store: Store): ViewState {
    if g == [] then vs else SaveOne(vs, Latest(g), store)
  }

  ghost predicate DistinctSequences(g: seq<SaveRequest>) {
    forall i, j :: 0 <= i < j < |g| ==> g[i].sequence != g[j].sequence
  }

  /** The guard records exactly what is durable. */
  predicate Coherent(vs: ViewState) {
    vs.newest == if vs.durable.Some? then Some(vs.durable.value.sequence) else None
  }

  /** A save the one-at-a-time worker could commit from `vs`. */
  predicate Committable(vs: ViewState, r: SaveRequest, store: Store) {
    !Stale(vs, r) && Rejection(r, store).None?
  }

  /** `r` is the committable request of `g` with the highest sequence. */
  ghost predicate BestCommittable(vs: ViewState, g: seq<SaveRequest>, store: Store, r: SaveRequest) {
    r in g && Committable(vs, r, store)
    && forall q :: q in g && Committable(vs, q, store) ==> q.sequence <= r.sequence
  }

  lemma {:induction false} SaveEachCommitsBest(vs: ViewState, g: seq<SaveRequest>, store: Store)
    requires DistinctSequences(g)
    ensures var out := SaveEach(vs, g, store);
      if exists r :: r in g && Committable(vs, r, store)
      then out.durable.Some? && out.newest == Some(out.durable.value.sequence)
           && BestCommittable(vs, g, store, out.durable.value)
      else out.newest == vs.newest && out.durable == vs.durable
  {
    if g != [] {
      var front, last := g[..|g| - 1], g[|g| - 1];
      SplitLast(g);
      assert forall q :: q in g <==> q in front || q == last;
      SaveEachCommitsBest(vs, front, store);
      var mid, out := SaveEach(vs, front, store), SaveEach(vs, g, store);
      var had := exists r :: r in front && Committable(vs, r, store);
      if Committable(vs, last, store) && (!had || last.sequence > mid.durable.value.sequence) {
        assert last in g && out.durable == Some(last);
        assert BestCommittable(vs, g, store, last);
      } else if had {
        assert mid.durable.value != last;
        assert out.durable == mid.durable && out.newest == mid.newest;
        assert BestCommittable(vs, g, store, mid.durable.value);
      } else {
        assert forall r :: r in g ==> !Committable(vs, r, store);
      }
    }
  }

  lemma SaveEachKeepsCoherence(vs: ViewState, g: seq<SaveRequest>, store: Store)
    requires Coherent(vs)
    ensures Coherent(SaveEach(vs, g, store))
  {
  }

  /**
   * Coalescing and one-at-a-time service leave the same durable row exactly when the
   * group's latest save is stale or accepted, or nothing in the group could commit.
   */
  lemma CoalescingAgreesExactly(vs: ViewState, g: seq<SaveRequest>, store: Store)
    requires Coherent(vs) && DistinctSequences(g)
    ensures SaveGroup(vs, g, store).durable == SaveEach(vs, g, store).durable
      <==> (g == [] || Stale(vs, Latest(g)) || Rejection(Latest(g), store).None?
            || forall r :: r in g ==> !Committable(vs, r, store))
  {
    SaveEachCommitsBest(vs, g, store);
    if g != [] {
      var top := Latest(g);
      LatestIsHighest(g);
      if Committable(vs, top, store) {
        var best := SaveEach(vs, g, store).durable.value;
        var i :| 0 <= i < |g| && g[i] == best;
        assert g[i].sequence == top.sequence;
        assert i == LatestIndex(g);
      }
    }
  }

  /** A group whose latest save is refused while an older one would have been accepted. */
  lemma CoalescingCanLoseAnOlderSave()
    ensures exists vs: ViewState, g: seq<SaveRequest>, store: Store ::
      Coherent(vs) && DistinctSequences(g)
      && SaveGroup(vs, g, store).durable.None? && SaveEach(vs, g, store).durable.Some?
  {
    var store: Store := r => None;
    var good := SaveRequest(0, 0, 1, "draft", false);
    var bad := SaveRequest(0, 0, 2, "broken", true);
    var vs := ViewState(None, None, None);
    var g := [good, bad];
    assert g[..1] == [good] && [good][..0] == [];
    assert SaveEach(vs, [], store) == vs;
    assert SaveEach(vs, [good], store) == SaveOne(vs, good, store);
    assert SaveEach(vs, g, store).durable.Some?;
    assert SaveGroup(vs, g, store).durable.None?;
  }

  ghost predicate AcceptsAll(g: seq<SaveRequest>, store: Store) {
    forall r :: r in g ==> Rejection(r, store).None?
  }

  lemma {:induction false} SaveEachClearsFailure(vs: ViewState, g: seq<SaveRequest>, store: Store)
    requires AcceptsAll(g, store)
    ensures SaveEach(vs, g, store).failed ==
      if exists r :: r in g && !Stale(vs, r) then None else vs.failed
    ensures (forall r :: r in g ==> Stale(vs, r)) ==> SaveEach(vs, g, store) == vs
  {
    if g != [] {
      var front, last := g[..|g| - 1], g[|g| - 1];
      SplitLast(g);
      assert forall q :: q in g <==> q in front || q == last;
      SaveEachClearsFailure(vs, front, store);
      if !Stale(vs, last) && Stale(SaveEach(vs, front, store), last) {
        assert SaveEach(vs, front, store) != vs;
      }
    }
  }

  /** With an accepting store the two workers agree on the whole view state. */
  lemma AcceptedGroupIsSaveEach(vs: ViewState, g: seq<SaveRequest>, store: Store)
    requires Coherent(vs) && DistinctSequences(g) && AcceptsAll(g, store)
    ensures SaveGroup(vs, g, store) == SaveEach(vs, g, store)
  {
    if g != [] {
      var top := Latest(g);
      LatestIsHighest(g);
      SaveEachClearsFailure(vs, g, store);
      SaveEachCommitsBest(vs, g, store);
      CoalescingAgreesExactly(vs, g, store);
      SaveEachKeepsCoherence(vs, g, store);
      if Stale(vs, top) {
        forall r | r in g ensures Stale(vs, r) {
          assert r.sequence <= top.sequence;
        }
      } else {
        assert top in g;
      }
    }
  }

  lemma {:induction false} SaveEachConcat(vs: ViewState, a: seq<SaveRequest>, b: seq<SaveRequest>, store: Store)
    ensures SaveEach(vs, a + b, store) == SaveEach(SaveEach(vs, a, store), b, store)
  {
    if b == [] {
      assert a + b == a;
    } else {
      SaveEachConcat(vs, a, b[..|b| - 1], store);
      assert (a + b)[..|a + b| - 1] == a + b[..|b| - 1];
    }
  }
}
