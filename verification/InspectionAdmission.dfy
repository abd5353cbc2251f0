/**
 * Greedy admission under a byte budget: every item is put into the document together with its
 * counters, measured, and taken out again, counters and all, if the document grew too long.
 */
module InspectionAdmission {
  import opened Prelude
  import opened InspectionDocument

  datatype InspectionError = InvalidLimit | TooSmall | Expired

  const OUTPUT_MINIMUM := 1024
  const OUTPUT_LIMIT := 32 * 1024

  // --- what was taken and what was left ---------------------------------------------------------

  /** The items whose flag is set, in order. */
  function Taken<T>(items: seq<T>, flags: seq<bool>): (taken: seq<T>)
    requires |flags| <= |items|
    ensures |taken| + LeftCount(flags) == |flags|
  {
    if flags == [] then []
    else
      var n := |flags| - 1;
      if flags[n] then Taken(items, flags[..n]) + [items[n]] else Taken(items, flags[..n])
  }

  /** The positions whose flag is set, in order. */
  function Places(flags: seq<bool>): seq<nat> {
    if flags == [] then []
    else
      var n := |flags| - 1;
      if flags[n] then Places(flags[..n]) + [n] else Places(flags[..n])
  }

  lemma {:induction false} PlacesAreSet(flags: seq<bool>, k: nat)
    ensures k in Places(flags) <==> k < |flags| && flags[k]
  {
    if flags != [] {
      PlacesAreSet(flags[..|flags| - 1], k);
    }
  }

  /** What was taken stands at the positions whose flag is set, in the order of the items. */
  lemma {:induction false} TakenInOrder<T(!new)>(items: seq<T>, flags: seq<bool>)
    requires |flags| <= |items|
    ensures Picked(Taken(items, flags), items[..|flags|], Places(flags))
  {
    if flags != [] {
      var n := |flags| - 1;
      TakenInOrder(items, flags[..n]);
      PickedNext(Taken(items, flags[..n]), items[..n], Places(flags[..n]), items[n], flags[n]);
      assert items[..n + 1] == items[..n] + [items[n]];
    }
  }

  function LeftCount(flags: seq<bool>): nat {
    if flags == [] then 0 else LeftCount(flags[..|flags| - 1]) + if flags[|flags| - 1] then 0 else 1
  }

  function Sum(sizes: seq<nat>): nat {
    if sizes == [] then 0 else Sum(sizes[..|sizes| - 1]) + sizes[|sizes| - 1]
  }

  /** The sizes of what was left, and of what was taken. */
  function LeftBytes(sizes: seq<nat>, flags: seq<bool>): nat
    requires |flags| <= |sizes|
  {
    if flags == [] then 0
    else
      var n := |flags| - 1;
      LeftBytes(sizes, flags[..n]) + if flags[n] then 0 else sizes[n]
  }

  function TakenBytes(sizes: seq<nat>, flags: seq<bool>): nat
    requires |flags| <= |sizes|
  {
    if flags == [] then 0
    else
      var n := |flags| - 1;
      TakenBytes(sizes, flags[..n]) + if flags[n] then sizes[n] else 0
  }

  /** Nothing disappears: what was taken and what was left add up, decision by decision. */
  lemma {:induction false} TakenAndLeft(sizes: seq<nat>, flags: seq<bool>)
    requires |flags| <= |sizes|
    ensures TakenBytes(sizes, flags) + LeftBytes(sizes, flags) == Sum(sizes[..|flags|])
  {
    if flags != [] {
      var n := |flags| - 1;
      TakenAndLeft(sizes, flags[..n]);
      assert sizes[..|flags|][..n] == sizes[..n];
    }
  }

  /** The sizes of what was taken, added up, are the sizes of the items that are in. */
  lemma {:induction false} TakenBytesAreTheirs(items: seq<Item>, flags: seq<bool>)
    requires |flags| <= |items|
    ensures TakenBytes(ItemSizes(items), flags) == Sum(ItemSizes(Taken(items, flags)))
  {
    if flags != [] {
      var n := |flags| - 1;
      TakenBytesAreTheirs(items, flags[..n]);
      if flags[n] {
        TakeAppend(Taken(items, flags[..n]), items[n]);
        TakeAppend(ItemSizes(Taken(items, flags[..n])), ItemSize(items[n]));
        assert ItemSizes(Taken(items, flags)) == ItemSizes(Taken(items, flags[..n])) + [ItemSize(items[n])];
      }
    }
  }

  lemma {:induction false} SumPrefix(sizes: seq<nat>, n: nat)
    requires n <= |sizes|
    ensures Sum(sizes[..n]) <= Sum(sizes)
    decreases |sizes| - n
  {
    if n == |sizes| {
      FullPrefix(sizes);
    } else {
      assert sizes[..n + 1][..n] == sizes[..n];
      SumPrefix(sizes, n + 1);
    }
  }

  lemma TakenFitsSum(sizes: seq<nat>, flags: seq<bool>)
    requires |flags| <= |sizes|
    ensures TakenBytes(sizes, flags) <= Sum(sizes)
  {
    TakenAndLeft(sizes, flags);
    SumPrefix(sizes, |flags|);
  }

  function ItemSizes(items: seq<Item>): seq<nat> {
    seq(|items|, i requires 0 <= i < |items| => ItemSize(items[i]))
  }

  function RowSizes(rows: seq<Row>): seq<nat> {
    seq(|rows|, i requires 0 <= i < |rows| => RowSize(rows[i]))
  }

  // --- one list of items ----------------------------------------------------------------------------

  /** What admission changes: one list of the document, its counter, and the omitted bytes. */
  datatype Slot = Slot(items: seq<Item>, omitted: nat, bytes: nat)

  function AddItem(slot: Slot, item: Item, size: nat): Slot
    requires slot.omitted > 0 && slot.bytes >= size
  {
    Slot(slot.items + [item], slot.omitted - 1, slot.bytes - size)
  }

  function RemoveItem(slot: Slot, size: nat): Slot
    requires slot.items != []
  {
    Slot(slot.items[..|slot.items| - 1], slot.omitted + 1, slot.bytes + size)
  }

  /** Taking an item out again restores everything exactly. */
  lemma RemoveUndoesAdd(slot: Slot, item: Item, size: nat)
    requires slot.omitted > 0 && slot.bytes >= size
    ensures RemoveItem(AddItem(slot, item, size), size) == slot
  {
    TakeAppend(slot.items, item);
  }

  /** Counters large enough for every item to be taken. */
  predicate Admissible(slot: Slot, items: seq<Item>) {
    |items| <= slot.omitted && Sum(ItemSizes(items)) <= slot.bytes
  }

  /** The slot after some decisions. */
  function Decided(slot: Slot, items: seq<Item>, flags: seq<bool>): Slot
    requires |flags| <= |items| && Admissible(slot, items)
  {
    TakenFitsSum(ItemSizes(items), flags);
    var taken := Taken(items, flags);
    Slot(slot.items + taken, slot.omitted - |taken|, slot.bytes - TakenBytes(ItemSizes(items), flags))
  }

  lemma DecidedNext(slot: Slot, items: seq<Item>, flags: seq<bool>, flag: bool)
    requires |flags| < |items| && Admissible(slot, items)
    ensures var now := Decided(slot, items, flags); var size := ItemSizes(items)[|flags|];
      && now.omitted > 0 && now.bytes >= size
      && Decided(slot, items, flags + [flag]) == if flag then AddItem(now, items[|flags|], size) else now
  {
    var sizes := ItemSizes(items);
    TakenFitsSum(sizes, flags);
    TakenFitsSum(sizes, flags + [true]);
    TakeAppend(flags, flag);
    TakeAppend(flags, true);
    Reassociate(slot.items, Taken(items, flags), [items[|flags|]]);
  }

  /** The decision was to take the item exactly when the document with it still fitted. */
  ghost predicate FlagIsFit(slot: Slot, items: seq<Item>, before: seq<bool>, flag: bool, measure: Slot -> nat, max: nat)
    requires |before| < |items| && Admissible(slot, items)
  {
    flag <==> measure(Decided(slot, items, before + [true])) <= max
  }

  ghost predicate Greedy(slot: Slot, items: seq<Item>, flags: seq<bool>, measure: Slot -> nat, max: nat)
    requires |flags| <= |items| && Admissible(slot, items)
  {
    forall i {:trigger FlagIsFit(slot, items, flags[..i], flags[i], measure, max)} :: 0 <= i < |flags| ==>
      FlagIsFit(slot, items, flags[..i], flags[i], measure, max)
  }

  lemma GreedyNext(slot: Slot, items: seq<Item>, flags: seq<bool>, flag: bool, measure: Slot -> nat, max: nat)
    requires |flags| < |items| && Admissible(slot, items)
    requires Greedy(slot, items, flags, measure, max) && FlagIsFit(slot, items, flags, flag, measure, max)
    ensures Greedy(slot, items, flags + [flag], measure, max)
  {
    var next := flags + [flag];
    forall i | 0 <= i < |next| ensures FlagIsFit(slot, items, next[..i], next[i], measure, max) {
      assert next[..i] == flags[..i];
    }
  }

  /**
   * One list. `measure` is the length of the whole document around it. Items are taken greedily,
   * and the document is within the limit whenever it was; only the deadline stops this early.
   */
  method Admit(slot: Slot, items: seq<Item>, measure: Slot -> nat, max: nat, ticks: nat)
    returns (slot': Slot, flags: seq<bool>, ticks': nat)
    requires Admissible(slot, items) && measure(slot) <= max
    ensures |flags| == Min(ticks, |items|) && ticks' == ticks - |flags|
    ensures slot' == Decided(slot, items, flags) && measure(slot') <= max
    ensures Greedy(slot, items, flags, measure, max)
  {
    slot', flags, ticks' := slot, [], ticks;
    assert Decided(slot, items, []) == slot by {
      assert slot.items + [] == slot.items;
    }
    for k := 0 to |items|
      invariant |flags| == k && ticks' + k == ticks
      invariant slot' == Decided(slot, items, flags) && measure(slot') <= max
      invariant Greedy(slot, items, flags, measure, max)
    {
      if ticks' == 0 {
        return;
      }
      ticks' := ticks' - 1;
      DecidedNext(slot, items, flags, true);
      DecidedNext(slot, items, flags, false);
      var size := ItemSizes(items)[k];
      ghost var before := slot';
      slot' := AddItem(slot', items[k], size);
      var fits := measure(slot') <= max;
      if !fits {
        RemoveUndoesAdd(before, items[k], size);
        slot' := RemoveItem(slot', size);
      }
      GreedyNext(slot, items, flags, fits, measure, max);
      flags := flags + [fits];
    }
  }

  // --- rows ---------------------------------------------------------------------------------------------

  /** What admitting rows changes: the rows, three counters, and the counts inside the sources. */
  datatype RowSlot = RowSlot(rows: seq<Row>, sources: seq<Item>, admitted: nat, omitted: nat, bytes: nat)

  /** The last source with this id, or the number of sources. */
  function SourceAt(sources: seq<Item>, key: string): (at: nat)
    ensures at <= |sources|
    ensures at < |sources| ==> sources[at].key == key
    ensures forall i :: at < i < |sources| ==> sources[i].key != key
    ensures at == |sources| ==> forall i :: 0 <= i < |sources| ==> sources[i].key != key
  {
    if sources == [] then 0
    else if sources[|sources| - 1].key == key then |sources| - 1
    else
      var at := SourceAt(sources[..|sources| - 1], key);
      if at == |sources| - 1 then |sources| else at
  }

  /** Every source counts its admitted rows. */
  predicate Counting(sources: seq<Item>) {
    forall i :: 0 <= i < |sources| ==> sources[i].counter.Some?
  }

  function Counted(sources: seq<Item>, at: nat, rows: nat): seq<Item>
    requires at <= |sources|
  {
    if at < |sources| then sources[at := sources[at].(counter := Some(rows))] else sources
  }

  function CountAt(sources: seq<Item>, at: nat): nat
    requires Counting(sources)
  {
    if at < |sources| then sources[at].counter.value else 0
  }

  lemma {:induction false} SourceAtIgnoresCounts(a: seq<Item>, b: seq<Item>, key: string)
    requires |a| == |b| && forall i :: 0 <= i < |a| ==> a[i].key == b[i].key
    ensures SourceAt(a, key) == SourceAt(b, key)
  {
    if a != [] {
      SourceAtIgnoresCounts(a[..|a| - 1], b[..|b| - 1], key);
    }
  }

  function AddRow(slot: RowSlot, row: Row, size: nat, readRows: nat): RowSlot
    requires slot.admitted < readRows && slot.bytes >= size && Counting(slot.sources)
  {
    var at := SourceAt(slot.sources, row.source);
    RowSlot(slot.rows + [row], Counted(slot.sources, at, CountAt(slot.sources, at) + 1),
            slot.admitted + 1, readRows - (slot.admitted + 1), slot.bytes - size)
  }

  function RemoveRow(slot: RowSlot, source: string, size: nat, readRows: nat): RowSlot
    requires slot.rows != [] && 0 < slot.admitted <= readRows && Counting(slot.sources)
  {
    var at := SourceAt(slot.sources, source);
    var count := CountAt(slot.sources, at);
    RowSlot(slot.rows[..|slot.rows| - 1], Counted(slot.sources, at, if count > 0 then count - 1 else 0),
            slot.admitted - 1, readRows - (slot.admitted - 1), slot.bytes + size)
  }

  lemma RemoveUndoesAddRow(slot: RowSlot, row: Row, size: nat, readRows: nat)
    requires slot.admitted < readRows && slot.bytes >= size && Counting(slot.sources)
    requires slot.omitted == readRows - slot.admitted
    ensures var next := AddRow(slot, row, size, readRows);
      Counting(next.sources) && RemoveRow(next, row.source, size, readRows) == slot
  {
    TakeAppend(slot.rows, row);
    var next := AddRow(slot, row, size, readRows);
    SourceAtIgnoresCounts(slot.sources, next.sources, row.source);
  }

  /** How many of the taken rows belong to the source at `at`. */
  function TakenOf(sources: seq<Item>, rows: seq<Row>, flags: seq<bool>, at: nat): nat
    requires |flags| <= |rows|
  {
    if flags == [] then 0
    else
      var n := |flags| - 1;
      TakenOf(sources, rows, flags[..n], at) + if flags[n] && SourceAt(sources, rows[n].source) == at then 1 else 0
  }

  /** The taken rows whose source is the one at `at`. */
  ghost function RowsOf(sources: seq<Item>, rows: seq<Row>, flags: seq<bool>, at: nat): set<int>
    requires |flags| <= |rows|
  {
    set k | 0 <= k < |flags| && flags[k] && SourceAt(sources, rows[k].source) == at
  }

  /** They are counted, each once. */
  lemma {:induction false} TakenOfCounts(sources: seq<Item>, rows: seq<Row>, flags: seq<bool>, at: nat)
    requires |flags| <= |rows|
    ensures TakenOf(sources, rows, flags, at) == |RowsOf(sources, rows, flags, at)|
  {
    if flags != [] {
      var n := |flags| - 1;
      TakenOfCounts(sources, rows, flags[..n], at);
      RowsOfNext(sources, rows, flags, at);
    }
  }

  lemma RowsOfNext(sources: seq<Item>, rows: seq<Row>, flags: seq<bool>, at: nat)
    requires 0 < |flags| <= |rows|
    ensures var n := |flags| - 1; var before := RowsOf(sources, rows, flags[..n], at);
      && n !in before
      && RowsOf(sources, rows, flags, at) ==
         if flags[n] && SourceAt(sources, rows[n].source) == at then before + {n} else before
  {
    var n := |flags| - 1;
    var before := RowsOf(sources, rows, flags[..n], at);
    var next := if flags[n] && SourceAt(sources, rows[n].source) == at then before + {n} else before;
    forall k: int ensures k in RowsOf(sources, rows, flags, at) <==> k in next {
      if 0 <= k < n {
        assert flags[..n][k] == flags[k];
      }
    }
  }

  /** Every source with the taken rows of its own added to its count. */
  function CountRows(sources: seq<Item>, rows: seq<Row>, flags: seq<bool>): seq<Item>
    requires |flags| <= |rows| && Counting(sources)
  {
    seq(|sources|, i requires 0 <= i < |sources| =>
      sources[i].(counter := Some(sources[i].counter.value + TakenOf(sources, rows, flags, i))))
  }

  /** Counters large enough for every row to be taken. */
  predicate RowsAdmissible(slot: RowSlot, rows: seq<Row>, readRows: nat) {
    && Counting(slot.sources) && slot.omitted == readRows - slot.admitted
    && slot.admitted + |rows| <= readRows && Sum(RowSizes(rows)) <= slot.bytes
  }

  /** The slot after the decisions `flags`; each source counts the rows of its own that were taken. */
  function RowsDecided(slot: RowSlot, rows: seq<Row>, flags: seq<bool>, readRows: nat): RowSlot
    requires |flags| <= |rows| && RowsAdmissible(slot, rows, readRows)
  {
    TakenFitsSum(RowSizes(rows), flags);
    var taken := Taken(rows, flags);
    RowSlot(
      slot.rows + taken,
      CountRows(slot.sources, rows, flags),
      slot.admitted + |taken|,
      readRows - (slot.admitted + |taken|),
      slot.bytes - TakenBytes(RowSizes(rows), flags))
  }

  lemma RowsDecidedNothing(slot: RowSlot, rows: seq<Row>, readRows: nat)
    requires RowsAdmissible(slot, rows, readRows)
    ensures RowsDecided(slot, rows, [], readRows) == slot
  {
    assert slot.rows + [] == slot.rows;
    assert RowsDecided(slot, rows, [], readRows).sources == slot.sources;
  }

  lemma RowTaken(first: RowSlot, rows: seq<Row>, flags: seq<bool>, readRows: nat)
    requires |flags| < |rows| && RowsAdmissible(first, rows, readRows)
    ensures var slot := RowsDecided(first, rows, flags, readRows); var size := RowSizes(rows)[|flags|];
      && slot.admitted < readRows && slot.bytes >= size && Counting(slot.sources)
      && RowsDecided(first, rows, flags + [true], readRows) == AddRow(slot, rows[|flags|], size, readRows)
  {
    var slot, next := RowsDecided(first, rows, flags, readRows), RowsDecided(first, rows, flags + [true], readRows);
    TakeAppend(flags, true);
    TakenFitsSum(RowSizes(rows), flags + [true]);
    SourceAtIgnoresCounts(first.sources, slot.sources, rows[|flags|].source);
    Reassociate(first.rows, Taken(rows, flags), [rows[|flags|]]);
    assert next.sources == AddRow(slot, rows[|flags|], RowSizes(rows)[|flags|], readRows).sources;
  }

  lemma RowLeft(first: RowSlot, rows: seq<Row>, flags: seq<bool>, readRows: nat)
    requires |flags| < |rows| && RowsAdmissible(first, rows, readRows)
    ensures RowsDecided(first, rows, flags + [false], readRows) == RowsDecided(first, rows, flags, readRows)
  {
    TakeAppend(flags, false);
    assert RowsDecided(first, rows, flags + [false], readRows).sources ==
           RowsDecided(first, rows, flags, readRows).sources;
  }

  ghost predicate RowFlagIsFit(slot: RowSlot, rows: seq<Row>, before: seq<bool>, flag: bool, readRows: nat,
        measure: RowSlot -> nat, max: nat)
    requires |before| < |rows| && RowsAdmissible(slot, rows, readRows)
  {
    flag <==> measure(RowsDecided(slot, rows, before + [true], readRows)) <= max
  }

  /** Each row was taken exactly when the document with it still fitted. */
  ghost predicate RowsGreedy(slot: RowSlot, rows: seq<Row>, flags: seq<bool>, readRows: nat,
        measure: RowSlot -> nat, max: nat)
    requires |flags| <= |rows| && RowsAdmissible(slot, rows, readRows)
  {
    forall i {:trigger RowFlagIsFit(slot, rows, flags[..i], flags[i], readRows, measure, max)} :: 0 <= i < |flags| ==>
      RowFlagIsFit(slot, rows, flags[..i], flags[i], readRows, measure, max)
  }

  lemma RowsGreedyNext(slot: RowSlot, rows: seq<Row>, flags: seq<bool>, flag: bool, readRows: nat,
        measure: RowSlot -> nat, max: nat)
    requires |flags| < |rows| && RowsAdmissible(slot, rows, readRows)
    requires RowsGreedy(slot, rows, flags, readRows, measure, max)
    requires RowFlagIsFit(slot, rows, flags, flag, readRows, measure, max)
    ensures RowsGreedy(slot, rows, flags + [flag], readRows, measure, max)
  {
    var next := flags + [flag];
    forall i | 0 <= i < |next| ensures RowFlagIsFit(slot, rows, next[..i], next[i], readRows, measure, max) {
      assert next[..i] == flags[..i];
    }
  }

  /** The rows, under the same budget; a row's own source counts it while it is in. */
  method AdmitRows(slot: RowSlot, rows: seq<Row>, readRows: nat, measure: RowSlot -> nat, max: nat, ticks: nat)
    returns (slot': RowSlot, flags: seq<bool>, ticks': nat)
    requires RowsAdmissible(slot, rows, readRows) && measure(slot) <= max
    ensures |flags| == Min(ticks, |rows|) && ticks' == ticks - |flags|
    ensures slot' == RowsDecided(slot, rows, flags, readRows) && measure(slot') <= max
    ensures RowsGreedy(slot, rows, flags, readRows, measure, max)
  {
    slot', flags, ticks' := slot, [], ticks;
    RowsDecidedNothing(slot, rows, readRows);
    for k := 0 to |rows|
      invariant |flags| == k && ticks' + k == ticks
      invariant slot' == RowsDecided(slot, rows, flags, readRows) && measure(slot') <= max
      invariant RowsGreedy(slot, rows, flags, readRows, measure, max)
    {
      if ticks' == 0 {
        return;
      }
      ticks' := ticks' - 1;
      RowTaken(slot, rows, flags, readRows);
      RowLeft(slot, rows, flags, readRows);
      var size := RowSizes(rows)[k];
      ghost var before := slot';
      slot' := AddRow(slot', rows[k], size, readRows);
      var fits := measure(slot') <= max;
      if !fits {
        RemoveUndoesAddRow(before, rows[k], size, readRows);
        slot' := RemoveRow(slot', rows[k].source, size, readRows);
      }
      RowsGreedyNext(slot, rows, flags, fits, readRows, measure, max);
      flags := flags + [fits];
    }
  }
}
