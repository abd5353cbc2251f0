/** The rotating cursor over sessions that still need recovery. */
module RecoveryCursor {
  import opened Prelude

  const MAX_PENDING_RECORDS := 1024

  /** Lexicographic order on identifiers. */
  predicate Below(a: string, b: string) {
    if b == [] then false
    else if a == [] then true
    else a[0] < b[0] || (a[0] == b[0] && Below(a[1..], b[1..]))
  }

  lemma {:induction false} BelowIrreflexive(a: string)
    ensures !Below(a, a)
  {
    if a != [] {
      BelowIrreflexive(a[1..]);
    }
  }

  lemma {:induction false} BelowTransitive(a: string, b: string, c: string)
    requires Below(a, b) && Below(b, c)
    ensures Below(a, c)
  {
    if a != [] && a[0] == b[0] == c[0] {
      BelowTransitive(a[1..], b[1..], c[1..]);
    }
  }

  /** A directory listing after sorting: names are unique, so strictly ascending. */
  ghost predicate Listing(names: seq<string>) {
    forall i, j :: 0 <= i < j < |names| ==> Below(names[i], names[j])
  }

  /** The first name above the cursor at or after `i`, or the length. */
  function FirstAbove(names: seq<string>, cursor: string, i: nat): (k: nat)
    requires i <= |names|
    ensures i <= k <= |names|
    ensures k < |names| ==> Below(cursor, names[k])
    ensures forall j :: i <= j < k ==> !Below(cursor, names[j])
    decreases |names| - i
  {
    if i == |names| || Below(cursor, names[i]) then i else FirstAbove(names, cursor, i + 1)
  }

  /** Where the next batch starts: above the cursor, else at the beginning. */
  function Start(names: seq<string>, cursor: Option<string>): (k: nat)
    requires names != []
    ensures k < |names|
  {
    if cursor.None? then 0
    else
      var found := FirstAbove(names, cursor.value, 0);
      if found == |names| then 0 else found
  }

  function BatchSize(limit: int, n: nat): (k: nat)
    requires n > 0
    ensures 1 <= k <= n
  {
    Max(1, Min(limit, n))
  }

  function Rotated(names: seq<string>, first: nat): seq<string>
    requires first <= |names|
  {
    names[first..] + names[..first]
  }

  /** The batch served from a cursor. */
  function Batch(names: seq<string>, cursor: Option<string>, limit: int): (batch: seq<string>)
    requires names != []
    ensures |batch| == BatchSize(limit, |names|)
  {
    Rotated(names, Start(names, cursor))[..BatchSize(limit, |names|)]
  }

  function LastOf(batch: seq<string>): string
    requires batch != []
  {
    batch[|batch| - 1]
  }

  class OwnedSessionLedger {
    /** The stored cursor: the last name served. */
    var cursor: Option<string>

    constructor ()
      ensures cursor.None?
    {
      cursor := None;
    }

    /** The next batch of pending sessions; the cursor moves to its last name. */
    method RecoveryBatch(names: seq<string>, limit: int) returns (result: Result<seq<string>, string>)
      modifies this
      ensures |names| > MAX_PENDING_RECORDS ==> result.Err? && cursor == old(cursor)
      ensures names == [] ==> result == Ok([]) && cursor == old(cursor)
      ensures 0 < |names| <= MAX_PENDING_RECORDS ==>
        result == Ok(Batch(names, old(cursor), limit)) && cursor == Some(LastOf(Batch(names, old(cursor), limit)))
      ensures 0 < |names| <= MAX_PENDING_RECORDS ==>
        |result.value| == if limit < 1 then 1 else if limit > |names| then |names| else limit
    {
      if |names| > MAX_PENDING_RECORDS {
        return Err("owned pending-session limit exceeded");
      }
      if names == [] {
        return Ok([]);
      }
      var first := 0;
      if cursor.Some? {
        while first < |names| && !Below(cursor.value, names[first])
          invariant first <= |names|
          invariant FirstAbove(names, cursor.value, 0) == FirstAbove(names, cursor.value, first)
        {
          first := first + 1;
        }
        if first == |names| {
          first := 0;
        }
      }
      var ordered := (names[first..] + names[..first])[..Max(1, Min(limit, |names|))];
      cursor := Some(ordered[|ordered| - 1]);
      result := Ok(ordered);
    }
  }

  // --- fairness --------------------------------------------------------------------------

  /** `m` consecutive batches over an unchanging listing. */
  function Batches(names: seq<string>, cursor: Option<string>, limit: int, m: nat): (out: seq<seq<string>>)
    requires names != []
    ensures |out| == m
    decreases m
  {
    if m == 0 then []
    else
      var batch := Batch(names, cursor, limit);
      [batch] + Batches(names, Some(LastOf(batch)), limit, m - 1)
  }

  ghost predicate Visited(batches: seq<seq<string>>, name: string) {
    exists i :: 0 <= i < |batches| && name in batches[i]
  }

  /** Steps forward from position `p` to position `x`, around the end if need be. */
  function Distance(p: nat, x: nat, n: nat): nat
    requires p < n && x < n
  {
    if x >= p then x - p else x - p + n
  }

  function Advance(p: nat, k: nat, n: nat): (q: nat)
    requires p < n && k <= n
    ensures q < n
  {
    if p + k < n then p + k else p + k - n
  }

  /** A listed cursor is followed by its successor. */
  lemma StartAfterListed(names: seq<string>, j: nat)
    requires Listing(names) && j < |names|
    ensures Start(names, Some(names[j])) == Advance(j, 1, |names|)
  {
    var found := FirstAbove(names, names[j], 0);
    if found <= j {
      if found == j {
        BelowIrreflexive(names[j]);
      } else {
        assert Below(names[found], names[j]);
        BelowTransitive(names[j], names[found], names[j]);
        BelowIrreflexive(names[j]);
      }
    } else if j + 1 < |names| {
      assert Below(names[j], names[j + 1]);
    }
  }

  /** Any cursor, listed or not, is followed by the least name above it, and the last one by the first. */
  lemma StartIsLeastAbove(names: seq<string>, cursor: string)
    requires Listing(names) && names != []
    ensures var k := Start(names, Some(cursor));
      if exists j :: 0 <= j < |names| && Below(cursor, names[j])
      then Below(cursor, names[k]) && forall j :: 0 <= j < |names| && Below(cursor, names[j]) ==> k <= j
      else k == 0
  {
  }

  lemma ListingDistinct(names: seq<string>, i: nat, j: nat)
    requires Listing(names) && i < |names| && j < |names| && names[i] == names[j]
    ensures i == j
  {
    if i < j {
      BelowIrreflexive(names[i]);
    } else if j < i {
      BelowIrreflexive(names[j]);
    }
  }

  lemma BatchAt(names: seq<string>, cursor: Option<string>, limit: int, t: nat)
    requires names != [] && t < BatchSize(limit, |names|)
    ensures t < |Batch(names, cursor, limit)|
    ensures Batch(names, cursor, limit)[t] == names[Advance(Start(names, cursor), t, |names|)]
  {
  }

  /** The next batch starts where this one ended. */
  lemma NextStart(names: seq<string>, cursor: Option<string>, limit: int)
    requires Listing(names) && names != []
    ensures Start(names, Some(LastOf(Batch(names, cursor, limit))))
         == Advance(Start(names, cursor), BatchSize(limit, |names|), |names|)
  {
    var n, k, p := |names|, BatchSize(limit, |names|), Start(names, cursor);
    BatchAt(names, cursor, limit, k - 1);
    StartAfterListed(names, Advance(p, k - 1, n));
  }

  /** A batch holds exactly the positions within its size of its start. */
  lemma BatchHolds(names: seq<string>, cursor: Option<string>, limit: int, x: nat)
    requires Listing(names) && x < |names|
    ensures names[x] in Batch(names, cursor, limit)
      <==> Distance(Start(names, cursor), x, |names|) < BatchSize(limit, |names|)
  {
    var n, p := |names|, Start(names, cursor);
    var batch := Batch(names, cursor, limit);
    if Distance(p, x, n) < BatchSize(limit, n) {
      BatchAt(names, cursor, limit, Distance(p, x, n));
    }
    if names[x] in batch {
      var t :| 0 <= t < |batch| && batch[t] == names[x];
      BatchAt(names, cursor, limit, t);
      ListingDistinct(names, Advance(p, t, n), x);
    }
  }

  lemma VisitedSplit(first: seq<string>, rest: seq<seq<string>>, name: string)
    ensures Visited([first] + rest, name) <==> name in first || Visited(rest, name)
  {
    var all := [first] + rest;
    if name in first {
      assert name in all[0];
    }
    if Visited(rest, name) {
      var i :| 0 <= i < |rest| && name in rest[i];
      assert name in all[i + 1];
    }
    if Visited(all, name) && name !in first {
      var i :| 0 <= i < |all| && name in all[i];
      assert name in rest[i - 1];
    }
  }

  /** How many names `m` batches of size `k` hold. */
  function Capacity(m: nat, k: nat): nat {
    if m == 0 then 0 else k + Capacity(m - 1, k)
  }

  lemma {:induction false} CapacityIsProduct(m: nat, k: nat)
    ensures Capacity(m, k) == m * k
  {
    if m > 0 {
      CapacityIsProduct(m - 1, k);
      assert m * k == (m - 1) * k + k;
    }
  }

  /** Moving the start brings what lies beyond closer by as much. */
  lemma DistanceAfter(p: nat, k: nat, x: nat, n: nat)
    requires p < n && k <= n && x < n && k <= Distance(p, x, n)
    ensures Distance(Advance(p, k, n), x, n) == Distance(p, x, n) - k
  {
  }

  lemma {:induction false} VisitedWithin(names: seq<string>, cursor: Option<string>, limit: int, m: nat, x: nat)
    requires Listing(names) && x < |names|
    ensures var far := Distance(Start(names, cursor), x, |names|);
      && (far < Capacity(m, BatchSize(limit, |names|)) ==> Visited(Batches(names, cursor, limit, m), names[x]))
      && (far >= Capacity(m, BatchSize(limit, |names|)) ==> !Visited(Batches(names, cursor, limit, m), names[x]))
    decreases m
  {
    if m > 0 {
      var n, k, p := |names|, BatchSize(limit, |names|), Start(names, cursor);
      var batch := Batch(names, cursor, limit);
      BatchHolds(names, cursor, limit, x);
      NextStart(names, cursor, limit);
      VisitedSplit(batch, Batches(names, Some(LastOf(batch)), limit, m - 1), names[x]);
      if k <= Distance(p, x, n) {
        DistanceAfter(p, k, x, n);
        VisitedWithin(names, Some(LastOf(batch)), limit, m - 1, x);
      }
    }
  }

  /**
   * From any cursor, listed or not, `m` consecutive batches over an unchanging listing
   * visit every name if and only if they are big enough together to hold them all.
   */
  lemma RecoveryIsFair(names: seq<string>, cursor: Option<string>, limit: int, m: nat)
    requires Listing(names) && names != []
    ensures (forall x :: 0 <= x < |names| ==> Visited(Batches(names, cursor, limit, m), names[x]))
      <==> m * BatchSize(limit, |names|) >= |names|
  {
    var n, p := |names|, Start(names, cursor);
    CapacityIsProduct(m, BatchSize(limit, n));
    forall x | 0 <= x < n && m * BatchSize(limit, n) >= n ensures Visited(Batches(names, cursor, limit, m), names[x]) {
      VisitedWithin(names, cursor, limit, m, x);
    }
    if m * BatchSize(limit, n) < n {
      var last := Advance(p, n - 1, n);
      assert Distance(p, last, n) == n - 1;
      VisitedWithin(names, cursor, limit, m, last);
    }
  }
}
