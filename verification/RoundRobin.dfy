/** Rows of all sources, one from each in turn, until every queue is empty. */
module RoundRobin {
  import opened Prelude

  /** A row with the position of its source in the plan. */
  datatype Read<T> = Read(source: nat, row: T)

  /** The `r`-th row of each of the first `n` sources that has one. */
  function Round<T>(queues: seq<seq<T>>, r: nat, n: nat): seq<Read<T>>
    requires n <= |queues|
  {
    if n == 0 then []
    else
      var front := Round(queues, r, n - 1);
      if r < |queues[n - 1]| then front + [Read(n - 1, queues[n - 1][r])] else front
  }

  function Rounds<T>(queues: seq<seq<T>>, rounds: nat): seq<Read<T>> {
    if rounds == 0 then [] else Rounds(queues, rounds - 1) + Round(queues, rounds - 1, |queues|)
  }

  /** The rows of one source, in the order they were read. */
  function Of<T>(rows: seq<Read<T>>, source: nat): seq<T> {
    if rows == [] then []
    else
      var front, last := Of(rows[..|rows| - 1], source), rows[|rows| - 1];
      if last.source == source then front + [last.row] else front
  }

  lemma {:induction false} OfConcat<T>(a: seq<Read<T>>, b: seq<Read<T>>, source: nat)
    ensures Of(a + b, source) == Of(a, source) + Of(b, source)
  {
    if b == [] {
      assert a + b == a;
    } else {
      OfConcat(a, b[..|b| - 1], source);
      assert (a + b)[..|a + b| - 1] == a + b[..|b| - 1];
      if b[|b| - 1].source == source {
        Reassociate(Of(a, source), Of(b[..|b| - 1], source), [b[|b| - 1].row]);
      }
    }
  }

  lemma {:induction false} RoundTakesOneEach<T>(queues: seq<seq<T>>, r: nat, n: nat, source: nat)
    requires n <= |queues|
    ensures Of(Round(queues, r, n), source)
         == if source < n && r < |queues[source]| then [queues[source][r]] else []
  {
    if n > 0 {
      RoundTakesOneEach(queues, r, n - 1, source);
      if r < |queues[n - 1]| {
        TakeAppend(Round(queues, r, n - 1), Read(n - 1, queues[n - 1][r]));
      }
    }
  }

  /** After so many rounds exactly that many rows of each source are out, in their order. */
  lemma {:induction false} RoundsTakePrefixes<T>(queues: seq<seq<T>>, rounds: nat, source: nat)
    requires source < |queues|
    ensures Of(Rounds(queues, rounds), source) == queues[source][..Min(rounds, |queues[source]|)]
  {
    if rounds > 0 {
      RoundsTakePrefixes(queues, rounds - 1, source);
      OneMoreRound(queues, Rounds(queues, rounds - 1), rounds - 1, source);
    }
  }

  lemma OneMoreRound<T>(queues: seq<seq<T>>, rows: seq<Read<T>>, r: nat, source: nat)
    requires source < |queues| && Of(rows, source) == queues[source][..Min(r, |queues[source]|)]
    ensures Of(rows + Round(queues, r, |queues|), source) == queues[source][..Min(r + 1, |queues[source]|)]
  {
    OfConcat(rows, Round(queues, r, |queues|), source);
    RoundTakesOneEach(queues, r, |queues|, source);
    PrefixGrows(queues[source], r);
  }

  lemma PrefixGrows<T>(queue: seq<T>, k: nat)
    ensures queue[..Min(k, |queue|)] + (if k < |queue| then [queue[k]] else []) == queue[..Min(k + 1, |queue|)]
  {
  }

  /** How many rows of its own source come before the `i`-th: the round it was read in. */
  function RoundOf<T>(rows: seq<Read<T>>, i: nat): nat
    requires i < |rows|
  {
    |Of(rows[..i], rows[i].source)|
  }

  /** Round by round, and within a round in the order of the sources. */
  ghost predicate InRounds<T(!new)>(rows: seq<Read<T>>) {
    forall i, j :: 0 <= i < j < |rows| ==>
      RoundOf(rows, i) < RoundOf(rows, j)
      || (RoundOf(rows, i) == RoundOf(rows, j) && rows[i].source < rows[j].source)
  }

  lemma {:induction false} RoundAscends<T>(queues: seq<seq<T>>, r: nat, n: nat)
    requires n <= |queues|
    ensures forall j :: 0 <= j < |Round(queues, r, n)| ==>
      Round(queues, r, n)[j].source < n && r < |queues[Round(queues, r, n)[j].source]|
    ensures forall i, j :: 0 <= i < j < |Round(queues, r, n)| ==>
      Round(queues, r, n)[i].source < Round(queues, r, n)[j].source
  {
    if n > 0 {
      RoundAscends(queues, r, n - 1);
    }
  }

  lemma {:induction false} OfOthers<T>(rows: seq<Read<T>>, source: nat)
    requires forall j :: 0 <= j < |rows| ==> rows[j].source != source
    ensures Of(rows, source) == []
  {
    if rows != [] {
      OfOthers(rows[..|rows| - 1], source);
    }
  }

  lemma EarlierRound<T>(rows: seq<Read<T>>, more: seq<Read<T>>, i: nat)
    requires i < |rows|
    ensures RoundOf(rows + more, i) == RoundOf(rows, i) && (rows + more)[i] == rows[i]
  {
    assert (rows + more)[..i] == rows[..i];
  }

  lemma LatestRound<T>(queues: seq<seq<T>>, r: nat, m: nat)
    requires m < |Round(queues, r, |queues|)|
    ensures var rows, round := Rounds(queues, r), Round(queues, r, |queues|);
      (rows + round)[|rows| + m] == round[m] && RoundOf(rows + round, |rows| + m) == r
  {
    var rows, round := Rounds(queues, r), Round(queues, r, |queues|);
    var source := round[m].source;
    RoundAscends(queues, r, |queues|);
    RoundsTakePrefixes(queues, r, source);
    BeforeLatest(rows, round, m);
  }

  lemma BeforeLatest<T>(rows: seq<Read<T>>, round: seq<Read<T>>, m: nat)
    requires m < |round| && forall i :: 0 <= i < m ==> round[i].source != round[m].source
    ensures RoundOf(rows + round, |rows| + m) == |Of(rows, round[m].source)|
  {
    assert (rows + round)[..|rows| + m] == rows + round[..m];
    OfConcat(rows, round[..m], round[m].source);
    OfOthers(round[..m], round[m].source);
  }

  lemma {:induction false} RoundsInOrder<T(!new)>(queues: seq<seq<T>>, rounds: nat)
    ensures InRounds(Rounds(queues, rounds))
    ensures forall i :: 0 <= i < |Rounds(queues, rounds)| ==> RoundOf(Rounds(queues, rounds), i) < rounds
  {
    if rounds > 0 {
      var rows, round := Rounds(queues, rounds - 1), Round(queues, rounds - 1, |queues|);
      var all := rows + round;
      assert all == Rounds(queues, rounds);
      RoundsInOrder(queues, rounds - 1);
      RoundAscends(queues, rounds - 1, |queues|);
      forall i | |rows| <= i < |all| ensures RoundOf(all, i) == rounds - 1 {
        LatestRound(queues, rounds - 1, i - |rows|);
      }
      OrderExtends(rows, round, rounds - 1);
    }
  }

  lemma OrderExtends<T(!new)>(rows: seq<Read<T>>, round: seq<Read<T>>, r: nat)
    requires InRounds(rows) && forall i :: 0 <= i < |rows| ==> RoundOf(rows, i) < r
    requires forall i :: |rows| <= i < |rows + round| ==> RoundOf(rows + round, i) == r
    requires forall i, j :: 0 <= i < j < |round| ==> round[i].source < round[j].source
    ensures InRounds(rows + round)
    ensures forall i :: 0 <= i < |rows + round| ==> RoundOf(rows + round, i) < r + 1
  {
    var all := rows + round;
    forall i | 0 <= i < |rows| ensures RoundOf(all, i) == RoundOf(rows, i) && all[i] == rows[i] {
      EarlierRound(rows, round, i);
    }
    forall i, j | 0 <= i < j < |all|
      ensures RoundOf(all, i) < RoundOf(all, j) || (RoundOf(all, i) == RoundOf(all, j) && all[i].source < all[j].source)
    {
      if i >= |rows| {
        assert all[i] == round[i - |rows|] && all[j] == round[j - |rows|];
      }
    }
  }

  predicate AnyLeft<T>(queues: seq<seq<T>>) {
    exists i :: 0 <= i < |queues| && queues[i] != []
  }

  function Total<T>(queues: seq<seq<T>>): nat {
    if queues == [] then 0 else Total(queues[..|queues| - 1]) + |queues[|queues| - 1]|
  }

  /** What is left of the queues after `rounds` rounds, and one more for the first `n` of them. */
  ghost predicate Drained<T>(queues: seq<seq<T>>, left: seq<seq<T>>, rounds: nat, n: nat) {
    && |left| == |queues|
    && forall i :: 0 <= i < |queues| ==>
         left[i] == queues[i][Min(rounds + (if i < n then 1 else 0), |queues[i]|)..]
  }

  /** The draining loop: every row is taken once, each source's in order, one per source in a round. */
  method Drain<T(!new)>(queues: seq<seq<T>>) returns (rows: seq<Read<T>>, rounds: nat)
    ensures rows == Rounds(queues, rounds)
    ensures forall i :: 0 <= i < |queues| ==> |queues[i]| <= rounds
    ensures forall i :: 0 <= i < |queues| ==> Of(rows, i) == queues[i]
    ensures InRounds(rows)
  {
    rows, rounds := [], 0;
    var left := queues;
    while AnyLeft(left)
      invariant rows == Rounds(queues, rounds) && Drained(queues, left, rounds, 0)
      decreases Longest(queues) - rounds
    {
      LeftMeansLonger(queues, left, rounds);
      left, rows := OneRound(queues, left, rows, rounds);
      rounds := rounds + 1;
    }
    forall i | 0 <= i < |queues| ensures |queues[i]| <= rounds && Of(rows, i) == queues[i] {
      AllOut(queues, left, rounds, i);
    }
    RoundsInOrder(queues, rounds);
  }

  lemma LeftMeansLonger<T>(queues: seq<seq<T>>, left: seq<seq<T>>, rounds: nat)
    requires Drained(queues, left, rounds, 0) && AnyLeft(left)
    ensures rounds < Longest(queues)
  {
    LongestBounds(queues);
    var i :| 0 <= i < |left| && left[i] != [];
    assert rounds < |queues[i]|;
  }

  /** Queues that are empty now were empty after as many rounds as they are long. */
  lemma AllOut<T>(queues: seq<seq<T>>, left: seq<seq<T>>, rounds: nat, i: nat)
    requires Drained(queues, left, rounds, 0) && !AnyLeft(left) && i < |queues|
    ensures |queues[i]| <= rounds && Of(Rounds(queues, rounds), i) == queues[i]
  {
    assert left[i] == [];
    RoundsTakePrefixes(queues, rounds, i);
  }

  method OneRound<T>(ghost queues: seq<seq<T>>, left: seq<seq<T>>, rows: seq<Read<T>>, ghost rounds: nat)
    returns (left': seq<seq<T>>, rows': seq<Read<T>>)
    requires Drained(queues, left, rounds, 0)
    ensures Drained(queues, left', rounds + 1, 0)
    ensures rows' == rows + Round(queues, rounds, |queues|)
  {
    left', rows' := left, rows;
    for i := 0 to |left|
      invariant Drained(queues, left', rounds, i)
      invariant rows' == rows + Round(queues, rounds, i)
    {
      if left'[i] != [] {
        Reassociate(rows, Round(queues, rounds, i), [Read(i, left'[i][0])]);
        rows' := rows' + [Read(i, left'[i][0])];
        left' := left'[i := left'[i][1..]];
      }
    }
  }

  ghost function Longest<T>(queues: seq<seq<T>>): nat {
    if queues == [] then 0 else Max(Longest(queues[..|queues| - 1]), |queues[|queues| - 1]|)
  }

  lemma {:induction false} LongestBounds<T>(queues: seq<seq<T>>)
    ensures forall i :: 0 <= i < |queues| ==> |queues[i]| <= Longest(queues)
  {
    if queues != [] {
      LongestBounds(queues[..|queues| - 1]);
    }
  }
}
