/**
 * Colour rules across a store that keeps predicate rules and column classifiers apart:
 * the split a save makes, and the merge a restore makes of whatever it finds.
 */
module ColorRules {
  import opened Prelude

  const MAX_COLOR_RULES := 16

  datatype Color = Red | Orange | Yellow | Green | Cyan | Blue | Purple | Magenta

  datatype ColorRule = ColorRule(predicateText: string, color: Color, column: Option<string>, value: Option<string>)

  datatype StoredRule = StoredRule(predicateText: string, color: string)

  datatype StoredClassifier = StoredClassifier(position: nat, column: string, value: Option<string>, color: string)

  function Label(c: Color): string {
    match c
    case Red => "red"
    case Orange => "orange"
    case Yellow => "yellow"
    case Green => "green"
    case Cyan => "cyan"
    case Blue => "blue"
    case Purple => "purple"
    case Magenta => "magenta"
  }

  /** The first listed colour with this label; an unknown label falls back to the default, red. */
  function ParseOrDefault(token: string): (c: Color)
    ensures forall k: Color :: token == Label(k) ==> c == k
  {
    if token == "orange" then Orange
    else if token == "yellow" then Yellow
    else if token == "green" then Green
    else if token == "cyan" then Cyan
    else if token == "blue" then Blue
    else if token == "purple" then Purple
    else if token == "magenta" then Magenta
    else Red
  }

  lemma UnknownIsRed(token: string)
    requires forall k: Color :: token != Label(k)
    ensures ParseOrDefault(token) == Red
  {
    assert token != Label(Orange) && token != Label(Yellow) && token != Label(Green) && token != Label(Cyan);
    assert token != Label(Blue) && token != Label(Purple) && token != Label(Magenta);
  }

  predicate IsColumn(r: ColorRule) {
    r.column.Some? && r.column.value != ""
  }

  // --- the split -------------------------------------------------------------------------

  /** Predicate rules among the first `n`, verbatim. */
  function LegacyUpTo(rules: seq<ColorRule>, n: nat): seq<StoredRule>
    requires n <= |rules|
  {
    if n == 0 then []
    else
      var r := rules[n - 1];
      LegacyUpTo(rules, n - 1) + (if IsColumn(r) then [] else [StoredRule(r.predicateText, Label(r.color))])
  }

  /** Column rules among the first `n`, with their position in the merged order. */
  function ClassifiersUpTo(rules: seq<ColorRule>, n: nat): seq<StoredClassifier>
    requires n <= |rules|
  {
    if n == 0 then []
    else
      var r := rules[n - 1];
      ClassifiersUpTo(rules, n - 1)
      + (if IsColumn(r) then [StoredClassifier(n - 1, r.column.value, r.value, Label(r.color))] else [])
  }

  function Kept(rules: seq<ColorRule>): nat {
    Min(|rules|, MAX_COLOR_RULES)
  }

  function SplitLegacy(rules: seq<ColorRule>): seq<StoredRule> {
    LegacyUpTo(rules, Kept(rules))
  }

  function SplitClassifiers(rules: seq<ColorRule>): seq<StoredClassifier> {
    ClassifiersUpTo(rules, Kept(rules))
  }

  // --- what the merge means ----------------------------------------------------------------

  function FromLegacy(s: StoredRule): ColorRule {
    ColorRule(s.predicateText, ParseOrDefault(s.color), None, None)
  }

  function FromClassifier(c: StoredClassifier): ColorRule {
    ColorRule("", ParseOrDefault(c.color), Some(c.column), c.value)
  }

  /** The first classifier, in stored order, that claims slot `p`. */
  function ClaimOf(cs: seq<StoredClassifier>, p: nat): Option<ColorRule> {
    if cs == [] then None
    else if cs[0].position == p then Some(FromClassifier(cs[0]))
    else ClaimOf(cs[1..], p)
  }

  function Claims(cs: seq<StoredClassifier>, total: nat): seq<Option<ColorRule>> {
    seq(total, p requires 0 <= p < total => ClaimOf(cs, p))
  }

  /** Slots from `i` on: empty ones take `legacy[used..]` in turn; those left over stay empty. */
  function FilledFrom(slots: seq<Option<ColorRule>>, i: nat, legacy: seq<ColorRule>, used: nat): seq<Option<ColorRule>>
    requires i <= |slots| && used <= |legacy|
    decreases |slots| - i
  {
    if i == |slots| then []
    else if slots[i].Some? || used == |legacy| then [slots[i]] + FilledFrom(slots, i + 1, legacy, used)
    else [Some(legacy[used])] + FilledFrom(slots, i + 1, legacy, used + 1)
  }

  function Filled(slots: seq<Option<ColorRule>>, legacy: seq<ColorRule>): seq<Option<ColorRule>> {
    FilledFrom(slots, 0, legacy, 0)
  }

  function Flatten(slots: seq<Option<ColorRule>>): seq<ColorRule> {
    if slots == [] then []
    else (if slots[0].Some? then [slots[0].value] else []) + Flatten(slots[1..])
  }

  function Restored(legacy: seq<StoredRule>): seq<ColorRule> {
    seq(|legacy|, i requires 0 <= i < |legacy| => FromLegacy(legacy[i]))
  }

  /** The merged list before the final cap. */
  function MergedAll(legacy: seq<StoredRule>, cs: seq<StoredClassifier>): seq<ColorRule> {
    Flatten(Filled(Claims(cs, |legacy| + |cs|), Restored(legacy)))
  }

  function Merged(legacy: seq<StoredRule>, cs: seq<StoredClassifier>): seq<ColorRule> {
    var all := MergedAll(legacy, cs);
    all[..Min(|all|, MAX_COLOR_RULES)]
  }

  // --- the merge algorithm -------------------------------------------------------------------

  function InsertClassifier(c: StoredClassifier, s: seq<StoredClassifier>): seq<StoredClassifier> {
    if s == [] || c.position <= s[0].position then [c] + s else [s[0]] + InsertClassifier(c, s[1..])
  }

  /** A stable sort by position. */
  function SortClassifiers(cs: seq<StoredClassifier>): seq<StoredClassifier> {
    if cs == [] then [] else InsertClassifier(cs[0], SortClassifiers(cs[1..]))
  }

  lemma {:induction false} InsertKeepsClaims(c: StoredClassifier, s: seq<StoredClassifier>, p: nat)
    ensures ClaimOf(InsertClassifier(c, s), p) == ClaimOf([c] + s, p)
    ensures |InsertClassifier(c, s)| == |s| + 1
  {
    assert ([c] + s)[1..] == s;
    if s != [] && c.position > s[0].position {
      InsertKeepsClaims(c, s[1..], p);
      assert ([c] + s[1..])[1..] == s[1..];
      assert ([s[0]] + InsertClassifier(c, s[1..]))[1..] == InsertClassifier(c, s[1..]);
    }
  }

  /** Sorting changes no slot's first claimant. */
  lemma {:induction false} SortKeepsClaims(cs: seq<StoredClassifier>, p: nat)
    ensures ClaimOf(SortClassifiers(cs), p) == ClaimOf(cs, p)
    ensures |SortClassifiers(cs)| == |cs|
  {
    if cs != [] {
      SortKeepsClaims(cs[1..], p);
      InsertKeepsClaims(cs[0], SortClassifiers(cs[1..]), p);
      assert ([cs[0]] + SortClassifiers(cs[1..]))[1..] == SortClassifiers(cs[1..]);
    }
  }

  lemma {:induction false} ClaimAppend(cs: seq<StoredClassifier>, n: nat, p: nat)
    requires n < |cs|
    ensures ClaimOf(cs[..n + 1], p)
      == if ClaimOf(cs[..n], p).Some? then ClaimOf(cs[..n], p)
         else if cs[n].position == p then Some(FromClassifier(cs[n])) else None
  {
    if n > 0 {
      assert cs[..n + 1][1..] == cs[1..][..n] && cs[..n][1..] == cs[1..][..n - 1];
      ClaimAppend(cs[1..], n - 1, p);
    } else {
      assert cs[..1][1..] == [];
    }
  }

  lemma {:induction false} FilledByNothing(slots: seq<Option<ColorRule>>, i: nat, legacy: seq<ColorRule>)
    requires i <= |slots|
    ensures FilledFrom(slots, i, legacy, |legacy|) == slots[i..]
    decreases |slots| - i
  {
    if i < |slots| {
      FilledByNothing(slots, i + 1, legacy);
    }
  }

  lemma FlattenCons(x: Option<ColorRule>, rest: seq<Option<ColorRule>>)
    ensures Flatten([x] + rest) == (if x.Some? then [x.value] else []) + Flatten(rest)
  {
    assert ([x] + rest)[1..] == rest;
  }

  lemma {:induction false} FlattenAppend(a: seq<Option<ColorRule>>, b: seq<Option<ColorRule>>)
    ensures Flatten(a + b) == Flatten(a) + Flatten(b)
  {
    if a == [] {
      assert a + b == b;
    } else {
      assert (a + b)[1..] == a[1..] + b;
      FlattenAppend(a[1..], b);
    }
  }

  /** Classifiers placed into an array of slots; one that fits no free slot is ignored. */
  method Place(classifiers: seq<StoredClassifier>, merged: array<Option<ColorRule>>)
    requires forall p :: 0 <= p < merged.Length ==> merged[p] == None
    modifies merged
    ensures merged[..] == Claims(classifiers, merged.Length)
  {
    for i := 0 to |classifiers|
      invariant forall p :: 0 <= p < merged.Length ==> merged[p] == ClaimOf(classifiers[..i], p)
    {
      var classifier := classifiers[i];
      forall p: nat | p < merged.Length
        ensures ClaimOf(classifiers[..i + 1], p) == if merged[p].Some? then merged[p]
          else if classifier.position == p then Some(FromClassifier(classifier)) else None
      {
        ClaimAppend(classifiers, i, p);
      }
      if classifier.position < merged.Length && merged[classifier.position].None? {
        merged[classifier.position] := Some(FromClassifier(classifier));
      }
    }
    assert classifiers[..|classifiers|] == classifiers;
  }

  lemma FilledNext(done: seq<Option<ColorRule>>, slots: seq<Option<ColorRule>>, i: nat, legacy: seq<ColorRule>,
        used: nat)
    requires i < |slots| && used < |legacy|
    ensures var taken := slots[i].Some?;
      done + FilledFrom(slots, i, legacy, used) ==
      (done + [if taken then slots[i] else Some(legacy[used])])
      + FilledFrom(slots, i + 1, legacy, if taken then used else used + 1)
  {
    var taken := slots[i].Some?;
    Reassociate(done, [if taken then slots[i] else Some(legacy[used])],
                FilledFrom(slots, i + 1, legacy, if taken then used else used + 1));
  }

  /** Predicate rules poured into the empty slots, in stored order. */
  method Pour(legacy: seq<ColorRule>, merged: array<Option<ColorRule>>)
    modifies merged
    ensures merged[..] == Filled(old(merged[..]), legacy)
  {
    ghost var slots, done := merged[..], [];
    var used, i := 0, 0;
    while i < merged.Length && used < |legacy|
      invariant 0 <= i <= merged.Length && 0 <= used <= |legacy|
      invariant |done| == i && merged[..] == done + slots[i..]
      invariant done + FilledFrom(slots, i, legacy, used) == Filled(slots, legacy)
    {
      ghost var x := if slots[i].Some? then slots[i] else Some(legacy[used]);
      FilledNext(done, slots, i, legacy, used);
      OneSlot(done, slots, i, x);
      assert merged[i] == merged[..][i] == slots[i];
      if merged[i].None? {
        merged[i] := Some(legacy[used]);
        used := used + 1;
      }
      done := done + [x];
      i := i + 1;
    }
    if i < merged.Length {
      FilledByNothing(slots, i, legacy);
    }
  }

  lemma OneSlot(done: seq<Option<ColorRule>>, slots: seq<Option<ColorRule>>, i: nat, x: Option<ColorRule>)
    requires i < |slots| && |done| == i
    ensures (done + slots[i..])[i] == slots[i]
    ensures (done + slots[i..])[i := x] == (done + [x]) + slots[i + 1..]
    ensures x == slots[i] ==> done + slots[i..] == (done + [x]) + slots[i + 1..]
  {
  }

  method MergeColorRules(legacy: seq<StoredRule>, classifiers: seq<StoredClassifier>) returns (rules: seq<ColorRule>)
    ensures rules == Merged(legacy, classifiers)
  {
    var sorted := SortClassifiers(classifiers);
    forall p: nat ensures ClaimOf(sorted, p) == ClaimOf(classifiers, p) {
      SortKeepsClaims(classifiers, p);
    }
    SortKeepsClaims(classifiers, 0);
    var merged := new Option<ColorRule>[|legacy| + |classifiers|](_ => None);
    Place(sorted, merged);
    assert merged[..] == Claims(sorted, merged.Length) == Claims(classifiers, |legacy| + |classifiers|);
    Pour(Restored(legacy), merged);
    ghost var slots := merged[..];
    rules := [];
    for i := 0 to merged.Length
      invariant merged[..] == slots
      invariant rules == Flatten(merged[..i])
    {
      assert merged[..i + 1] == merged[..i] + [merged[i]];
      FlattenAppend(merged[..i], [merged[i]]);
      FlattenCons(merged[i], []);
      assert [merged[i]] + [] == [merged[i]];
      if merged[i].Some? {
        rules := rules + [merged[i].value];
      }
    }
    assert merged[..merged.Length] == merged[..];
    assert rules == MergedAll(legacy, classifiers);
    rules := rules[..Min(|rules|, MAX_COLOR_RULES)];
  }

  // --- round trip ----------------------------------------------------------------------------

  /** What one rule becomes after a save and a restore. */
  function Canonical(r: ColorRule): ColorRule {
    if IsColumn(r) then r.(predicateText := "") else r.(column := None, value := None)
  }

  predicate Normalised(r: ColorRule) {
    if IsColumn(r) then r.predicateText == "" else r.column.None? && r.value.None?
  }

  function CanonicalFrom(rules: seq<ColorRule>, i: nat, n: nat): seq<ColorRule>
    requires i <= n <= |rules|
    decreases n - i
  {
    if i == n then [] else [Canonical(rules[i])] + CanonicalFrom(rules, i + 1, n)
  }

  lemma {:induction false} ClaimConcat(a: seq<StoredClassifier>, b: seq<StoredClassifier>, p: nat)
    ensures ClaimOf(a + b, p) == if ClaimOf(a, p).Some? then ClaimOf(a, p) else ClaimOf(b, p)
  {
    if a == [] {
      assert a + b == b;
    } else {
      assert (a + b)[1..] == a[1..] + b;
      ClaimConcat(a[1..], b, p);
    }
  }

  lemma {:induction false} SplitClaims(rules: seq<ColorRule>, n: nat, p: nat)
    requires n <= |rules|
    ensures ClaimOf(ClassifiersUpTo(rules, n), p)
      == if p < n && IsColumn(rules[p]) then Some(Canonical(rules[p])) else None
    ensures |LegacyUpTo(rules, n)| + |ClassifiersUpTo(rules, n)| == n
  {
    if n > 0 {
      SplitClaims(rules, n - 1, p);
      var r := rules[n - 1];
      if IsColumn(r) {
        var last := [StoredClassifier(n - 1, r.column.value, r.value, Label(r.color))];
        ClaimConcat(ClassifiersUpTo(rules, n - 1), last, p);
        assert last[1..] == [];
      } else {
        assert ClassifiersUpTo(rules, n) == ClassifiersUpTo(rules, n - 1);
      }
    }
  }

  /** Refilling slots `i..n` with the predicate rules that came from them. */
  lemma {:induction false} RefillFrom(rules: seq<ColorRule>, i: nat, n: nat, slots: seq<Option<ColorRule>>,
        legacy: seq<ColorRule>)
    requires i <= n <= |rules| && |slots| == n && |LegacyUpTo(rules, i)| <= |legacy|
    requires legacy == Restored(LegacyUpTo(rules, n))
    requires forall p :: 0 <= p < n ==> slots[p] == if IsColumn(rules[p]) then Some(Canonical(rules[p])) else None
    ensures Flatten(FilledFrom(slots, i, legacy, |LegacyUpTo(rules, i)|)) == CanonicalFrom(rules, i, n)
    decreases n - i
  {
    var used := |LegacyUpTo(rules, i)|;
    if i < n {
      LegacyPrefix(rules, i + 1, n);
      RefillFrom(rules, i + 1, n, slots, legacy);
      if !IsColumn(rules[i]) {
        assert LegacyUpTo(rules, n)[used] == LegacyUpTo(rules, i + 1)[used];
        assert legacy[used] == Canonical(rules[i]);
        FlattenCons(Some(legacy[used]), FilledFrom(slots, i + 1, legacy, used + 1));
      } else {
        assert LegacyUpTo(rules, i + 1) == LegacyUpTo(rules, i);
        FlattenCons(slots[i], FilledFrom(slots, i + 1, legacy, used));
      }
    }
  }

  lemma {:induction false} LegacyPrefix(rules: seq<ColorRule>, i: nat, n: nat)
    requires i <= n <= |rules|
    ensures LegacyUpTo(rules, i) <= LegacyUpTo(rules, n)
    decreases n - i
  {
    if i < n {
      LegacyPrefix(rules, i, n - 1);
    }
  }

  /** A save followed by a restore keeps every slot of the first MAX_COLOR_RULES, canonicalised. */
  lemma SplitThenMerge(rules: seq<ColorRule>)
    ensures Merged(SplitLegacy(rules), SplitClassifiers(rules)) == CanonicalFrom(rules, 0, Kept(rules))
  {
    var n := Kept(rules);
    var slots := Claims(SplitClassifiers(rules), n);
    forall p: nat
      ensures ClaimOf(SplitClassifiers(rules), p) ==
        if p < n && IsColumn(rules[p]) then Some(Canonical(rules[p])) else None
    {
      SplitClaims(rules, n, p);
    }
    SplitClaims(rules, n, 0);
    var legacy := Restored(SplitLegacy(rules));
    RefillFrom(rules, 0, n, slots, legacy);
    CanonicalLength(rules, 0, n);
    var all := MergedAll(SplitLegacy(rules), SplitClassifiers(rules));
    assert all == CanonicalFrom(rules, 0, n);
    assert all[..Min(|all|, MAX_COLOR_RULES)] == all;
  }

  lemma CanonicalLength(rules: seq<ColorRule>, i: nat, n: nat)
    requires i <= n <= |rules|
    ensures |CanonicalFrom(rules, i, n)| == n - i
    ensures forall k :: 0 <= k < n - i ==> CanonicalFrom(rules, i, n)[k] == Canonical(rules[i + k])
  {
    CanonicalAt(rules, i, n, 0);
    forall k | 0 <= k < n - i ensures CanonicalFrom(rules, i, n)[k] == Canonical(rules[i + k]) {
      CanonicalAt(rules, i, n, k);
    }
  }

  lemma {:induction false} CanonicalAt(rules: seq<ColorRule>, i: nat, n: nat, k: nat)
    requires i <= n <= |rules|
    ensures |CanonicalFrom(rules, i, n)| == n - i
    ensures k < n - i ==> CanonicalFrom(rules, i, n)[k] == Canonical(rules[i + k])
    decreases n - i
  {
    if i < n {
      CanonicalAt(rules, i + 1, n, if k == 0 then 0 else k - 1);
    }
  }

  /** The round trip is exact for a rule list if and only if its kept rules are normalised. */
  lemma RoundTripExactly(rules: seq<ColorRule>)
    ensures Merged(SplitLegacy(rules), SplitClassifiers(rules)) == rules[..Kept(rules)]
      <==> forall i :: 0 <= i < Kept(rules) ==> Normalised(rules[i])
  {
    var n := Kept(rules);
    SplitThenMerge(rules);
    CanonicalLength(rules, 0, n);
    var out := CanonicalFrom(rules, 0, n);
    if out == rules[..n] {
      forall i | 0 <= i < n ensures Normalised(rules[i]) {
        assert out[i] == Canonical(rules[i]) && out[i] == rules[..n][i];
      }
    }
    NormalisedIsCanonical(rules, n);
  }

  lemma NormalisedIsCanonical(rules: seq<ColorRule>, n: nat)
    requires n <= |rules|
    ensures (forall i :: 0 <= i < n ==> Normalised(rules[i])) ==> CanonicalFrom(rules, 0, n) == rules[..n]
  {
    if forall i :: 0 <= i < n ==> Normalised(rules[i]) {
      CanonicalLength(rules, 0, n);
      forall i | 0 <= i < n ensures CanonicalFrom(rules, 0, n)[i] == rules[..n][i] {
        assert Normalised(rules[i]);
      }
    }
  }

  // --- arbitrary stored lists ------------------------------------------------------------------

  function Holes(slots: seq<Option<ColorRule>>): nat {
    if slots == [] then 0 else (if slots[0].None? then 1 else 0) + Holes(slots[1..])
  }

  /** The rules a merge takes from the predicate list: those without a column. */
  function WithoutColumn(rules: seq<ColorRule>): seq<ColorRule> {
    if rules == [] then []
    else (if rules[0].column.None? then [rules[0]] else []) + WithoutColumn(rules[1..])
  }

  lemma {:induction false} WithoutColumnConcat(a: seq<ColorRule>, b: seq<ColorRule>)
    ensures WithoutColumn(a + b) == WithoutColumn(a) + WithoutColumn(b)
  {
    if a == [] {
      assert a + b == b;
    } else {
      assert (a + b)[1..] == a[1..] + b;
      WithoutColumnConcat(a[1..], b);
    }
  }

  lemma {:induction false} PourKeepsLegacy(slots: seq<Option<ColorRule>>, i: nat, legacy: seq<ColorRule>, used: nat)
    requires i <= |slots| && used <= |legacy| && Holes(slots[i..]) >= |legacy| - used
    requires forall k :: 0 <= k < |slots| && slots[k].Some? ==> slots[k].value.column.Some?
    requires forall k :: 0 <= k < |legacy| ==> legacy[k].column.None?
    ensures WithoutColumn(Flatten(FilledFrom(slots, i, legacy, used))) == legacy[used..]
    decreases |slots| - i
  {
    if i < |slots| {
      assert slots[i..][1..] == slots[i + 1..];
      if slots[i].Some? || used == |legacy| {
        PourKeepsLegacy(slots, i + 1, legacy, used);
        WithoutColumnCons(slots[i], FilledFrom(slots, i + 1, legacy, used));
      } else {
        PourKeepsLegacy(slots, i + 1, legacy, used + 1);
        WithoutColumnCons(Some(legacy[used]), FilledFrom(slots, i + 1, legacy, used + 1));
        assert legacy[used..] == [legacy[used]] + legacy[used + 1..];
      }
    }
  }

  lemma WithoutColumnCons(x: Option<ColorRule>, rest: seq<Option<ColorRule>>)
    ensures WithoutColumn(Flatten([x] + rest))
         == (if x.Some? && x.value.column.None? then [x.value] else []) + WithoutColumn(Flatten(rest))
  {
    FlattenCons(x, rest);
    WithoutColumnConcat(if x.Some? then [x.value] else [], Flatten(rest));
    assert x.Some? ==> [x.value][1..] == [];
  }

  lemma {:induction false} HolesAppend(a: seq<Option<ColorRule>>, b: seq<Option<ColorRule>>)
    ensures Holes(a + b) == Holes(a) + Holes(b)
  {
    if a == [] {
      assert a + b == b;
    } else {
      assert (a + b)[1..] == a[1..] + b;
      HolesAppend(a[1..], b);
    }
  }

  /** Each classifier takes at most one slot. */
  lemma {:induction false} ClaimsLeaveHoles(cs: seq<StoredClassifier>, total: nat)
    ensures Holes(Claims(cs, total)) + |cs| >= total
  {
    if cs == [] {
      AllHoles(Claims(cs, total));
    } else {
      ClaimsLeaveHoles(cs[1..], total);
      var p := cs[0].position;
      var before, after := Claims(cs[1..], total), Claims(cs, total);
      if p < total {
        assert after == before[..p] + ([after[p]] + before[p + 1..]);
        assert before == before[..p] + ([before[p]] + before[p + 1..]);
        HolesAppend(before[..p], [after[p]] + before[p + 1..]);
        HolesAppend(before[..p], [before[p]] + before[p + 1..]);
        HolesAppend([after[p]], before[p + 1..]);
        HolesAppend([before[p]], before[p + 1..]);
        assert [after[p]][1..] == [] && [before[p]][1..] == [];
      } else {
        assert after == before;
      }
    }
  }

  lemma {:induction false} AllHoles(slots: seq<Option<ColorRule>>)
    requires forall i :: 0 <= i < |slots| ==> slots[i].None?
    ensures Holes(slots) == |slots|
  {
    if slots != [] {
      AllHoles(slots[1..]);
    }
  }

  lemma {:induction false} ClaimsHaveColumns(cs: seq<StoredClassifier>, p: nat)
    ensures ClaimOf(cs, p).Some? ==> ClaimOf(cs, p).value.column.Some?
  {
    if cs != [] {
      ClaimsHaveColumns(cs[1..], p);
    }
  }

  /**
   * Whatever the store holds, every predicate rule is restored in its stored order before
   * the cap, and the restored list is a prefix of that: only the cap can lose one.
   */
  lemma LegacyRulesSurvive(legacy: seq<StoredRule>, cs: seq<StoredClassifier>)
    ensures WithoutColumn(MergedAll(legacy, cs)) == Restored(legacy)
    ensures Merged(legacy, cs) <= MergedAll(legacy, cs)
    ensures WithoutColumn(Merged(legacy, cs)) <= Restored(legacy)
  {
    var total := |legacy| + |cs|;
    ClaimsLeaveHoles(cs, total);
    forall p: nat ensures ClaimOf(cs, p).Some? ==> ClaimOf(cs, p).value.column.Some? {
      ClaimsHaveColumns(cs, p);
    }
    assert Claims(cs, total)[0..] == Claims(cs, total);
    PourKeepsLegacy(Claims(cs, total), 0, Restored(legacy), 0);
    var all, kept := MergedAll(legacy, cs), Merged(legacy, cs);
    assert all == kept + all[|kept|..];
    WithoutColumnConcat(kept, all[|kept|..]);
  }

  // --- every slot of a merge ---------------------------------------------------------------------

  ghost predicate Claimed(cs: seq<StoredClassifier>, p: nat) {
    exists k :: 0 <= k < |cs| && cs[k].position == p
  }

  /** How many positions below `p` no classifier claims. */
  ghost function Gaps(cs: seq<StoredClassifier>, p: nat): nat {
    if p == 0 then 0 else Gaps(cs, p - 1) + if Claimed(cs, p - 1) then 0 else 1
  }

  /** The first claim on `p`, in stored order. */
  ghost predicate FirstClaim(cs: seq<StoredClassifier>, p: nat, k: nat) {
    k < |cs| && cs[k].position == p && forall j :: 0 <= j < k ==> cs[j].position != p
  }

  lemma {:induction false} ClaimOfFirst(cs: seq<StoredClassifier>, p: nat, k: nat)
    requires FirstClaim(cs, p, k)
    ensures ClaimOf(cs, p) == Some(ColorRule("", ParseOrDefault(cs[k].color), Some(cs[k].column), cs[k].value))
  {
    if k > 0 {
      ClaimOfFirst(cs[1..], p, k - 1);
    }
  }

  lemma {:induction false} ClaimOfNone(cs: seq<StoredClassifier>, p: nat)
    ensures ClaimOf(cs, p).None? <==> !Claimed(cs, p)
  {
    if cs != [] {
      ClaimOfNone(cs[1..], p);
      if Claimed(cs[1..], p) {
        var k :| 0 <= k < |cs[1..]| && cs[1..][k].position == p;
        assert cs[k + 1].position == p;
      }
    }
  }

  lemma HolesNext(slots: seq<Option<ColorRule>>, p: nat)
    requires p < |slots|
    ensures Holes(slots[..p + 1]) == Holes(slots[..p]) + if slots[p].None? then 1 else 0
  {
    assert slots[..p + 1] == slots[..p] + [slots[p]];
    HolesAppend(slots[..p], [slots[p]]);
    assert [slots[p]][1..] == [];
  }

  lemma {:induction false} GapsAreHoles(cs: seq<StoredClassifier>, total: nat, p: nat)
    requires p <= total
    ensures Holes(Claims(cs, total)[..p]) == Gaps(cs, p)
  {
    if p > 0 {
      GapsAreHoles(cs, total, p - 1);
      HolesNext(Claims(cs, total), p - 1);
      ClaimOfNone(cs, p - 1);
    }
  }

  lemma {:induction false} FilledAt(slots: seq<Option<ColorRule>>, i: nat, legacy: seq<ColorRule>, used: nat, p: nat)
    requires i <= p < |slots| && used <= |legacy|
    ensures |FilledFrom(slots, i, legacy, used)| == |slots| - i
    ensures var e := used + Holes(slots[i..p]);
      FilledFrom(slots, i, legacy, used)[p - i] ==
        if slots[p].Some? || e >= |legacy| then slots[p] else Some(legacy[e])
    decreases |slots| - i
  {
    FilledLength(slots, i, legacy, used);
    if i < p {
      assert slots[i..p][1..] == slots[i + 1..p];
      FilledAt(slots, i + 1, legacy, if slots[i].Some? || used == |legacy| then used else used + 1, p);
    }
  }

  lemma {:induction false} FilledLength(slots: seq<Option<ColorRule>>, i: nat, legacy: seq<ColorRule>, used: nat)
    requires i <= |slots| && used <= |legacy|
    ensures |FilledFrom(slots, i, legacy, used)| == |slots| - i
    decreases |slots| - i
  {
    if i < |slots| {
      FilledLength(slots, i + 1, legacy, if slots[i].Some? || used == |legacy| then used else used + 1);
    }
  }

  /** Pouring leaves only the empty slots that come after the last predicate rule. */
  lemma {:induction false} HolesLeft(slots: seq<Option<ColorRule>>, legacy: seq<ColorRule>, p: nat)
    requires p <= |slots|
    ensures |Filled(slots, legacy)| == |slots|
    ensures Holes(Filled(slots, legacy)[..p]) == Max(0, Holes(slots[..p]) - |legacy|)
  {
    FilledLength(slots, 0, legacy, 0);
    if p > 0 {
      HolesLeft(slots, legacy, p - 1);
      HolesNext(slots, p - 1);
      HolesNext(Filled(slots, legacy), p - 1);
      FilledAt(slots, 0, legacy, 0, p - 1);
    }
  }

  lemma {:induction false} FlattenAt(slots: seq<Option<ColorRule>>, p: nat)
    requires p < |slots| && slots[p].Some?
    ensures 0 <= p - Holes(slots[..p]) < |Flatten(slots)|
    ensures Flatten(slots)[p - Holes(slots[..p])] == slots[p].value
  {
    if p > 0 {
      assert slots[..p][1..] == slots[1..][..p - 1];
      FlattenAt(slots[1..], p - 1);
    }
  }

  lemma {:induction false} FlattenLength(slots: seq<Option<ColorRule>>)
    ensures |Flatten(slots)| + Holes(slots) == |slots|
  {
    if slots != [] {
      FlattenLength(slots[1..]);
    }
  }

  /** Where the rule of slot `p` stands once the slots nothing is left for are dropped. */
  ghost function PlaceOf(legacy: seq<StoredRule>, cs: seq<StoredClassifier>, p: nat): int {
    p - Max(0, Gaps(cs, p) - |legacy|)
  }

  /** A slot that was taken or is poured into, found in the merged list. */
  lemma PouredAt(slots: seq<Option<ColorRule>>, legacy: seq<ColorRule>, p: nat)
    requires p < |slots| && (slots[p].Some? || Holes(slots[..p]) < |legacy|)
    ensures var at := p - Max(0, Holes(slots[..p]) - |legacy|); var merged := Flatten(Filled(slots, legacy));
      0 <= at < |merged| && merged[at] == if slots[p].Some? then slots[p].value else legacy[Holes(slots[..p])]
  {
    HolesLeft(slots, legacy, p);
    assert slots[0..p] == slots[..p];
    FilledAt(slots, 0, legacy, 0, p);
    FlattenAt(Filled(slots, legacy), p);
  }

  /** Whatever the store holds, the first classifier of a position has that slot of the merged list. */
  lemma ClaimedSlot(legacy: seq<StoredRule>, cs: seq<StoredClassifier>, p: nat, k: nat)
    requires p < |legacy| + |cs| && FirstClaim(cs, p, k)
    ensures 0 <= PlaceOf(legacy, cs, p) < |MergedAll(legacy, cs)|
    ensures MergedAll(legacy, cs)[PlaceOf(legacy, cs, p)] ==
            ColorRule("", ParseOrDefault(cs[k].color), Some(cs[k].column), cs[k].value)
  {
    ClaimOfFirst(cs, p, k);
    GapsAreHoles(cs, |legacy| + |cs|, p);
    PouredAt(Claims(cs, |legacy| + |cs|), Restored(legacy), p);
  }

  /** The slots nobody claims get the predicate rules, in stored order, as long as there are any. */
  lemma FreeSlot(legacy: seq<StoredRule>, cs: seq<StoredClassifier>, p: nat, gaps: nat)
    requires p < |legacy| + |cs| && !Claimed(cs, p) && gaps == Gaps(cs, p) < |legacy|
    ensures 0 <= PlaceOf(legacy, cs, p) < |MergedAll(legacy, cs)|
    ensures MergedAll(legacy, cs)[PlaceOf(legacy, cs, p)] ==
            ColorRule(legacy[gaps].predicateText, ParseOrDefault(legacy[gaps].color), None, None)
  {
    FreeSlotRule(legacy, cs, p, gaps);
  }

  lemma FreeSlotRule(legacy: seq<StoredRule>, cs: seq<StoredClassifier>, p: nat, gaps: nat)
    requires p < |legacy| + |cs| && !Claimed(cs, p) && gaps == Gaps(cs, p) < |legacy|
    ensures 0 <= PlaceOf(legacy, cs, p) < |MergedAll(legacy, cs)|
    ensures MergedAll(legacy, cs)[PlaceOf(legacy, cs, p)] == FromLegacy(legacy[gaps])
  {
    ClaimOfNone(cs, p);
    GapsAreHoles(cs, |legacy| + |cs|, p);
    PouredAt(Claims(cs, |legacy| + |cs|), Restored(legacy), p);
  }

  /** The merged list is as long as it has slots with a rule, and the restored one is cut at the cap. */
  lemma MergedSize(legacy: seq<StoredRule>, cs: seq<StoredClassifier>)
    ensures |MergedAll(legacy, cs)| == PlaceOf(legacy, cs, |legacy| + |cs|)
    ensures |Merged(legacy, cs)| == Min(|MergedAll(legacy, cs)|, MAX_COLOR_RULES)
  {
    var total := |legacy| + |cs|;
    var slots := Claims(cs, total);
    GapsAreHoles(cs, total, total);
    HolesLeft(slots, Restored(legacy), total);
    FlattenLength(Filled(slots, Restored(legacy)));
    FullPrefix(slots);
    FullPrefix(Filled(slots, Restored(legacy)));
  }
}
