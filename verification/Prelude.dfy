/** Small value types and sequence facts shared by the models. */
module Prelude {

  datatype Option<+T> = None | Some(value: T)

  datatype Result<+T, +E> = Ok(value: T) | Err(error: E)

  function Min(a: int, b: int): int {
    if a <= b then a else b
  }

  function Max(a: int, b: int): int {
    if a >= b then a else b
  }

  /** A sequence in which every element occurs once. */
  ghost predicate NoDuplicates<T>(s: seq<T>) {
    forall i, j :: 0 <= i < j < |s| ==> s[i] != s[j]
  }

  /** `part` is what stands at the positions `picks` of `s`, in order. */
  ghost predicate Picked<T(!new)>(part: seq<T>, s: seq<T>, picks: seq<nat>) {
    && |picks| == |part|
    && (forall i, j :: 0 <= i < j < |picks| ==> picks[i] < picks[j])
    && (forall i :: 0 <= i < |picks| ==> picks[i] < |s| && part[i] == s[picks[i]])
  }

  /** One more element, taken or left. */
  lemma PickedNext<T(!new)>(part: seq<T>, s: seq<T>, picks: seq<nat>, x: T, take: bool)
    requires Picked(part, s, picks)
    ensures Picked(if take then part + [x] else part, s + [x], if take then picks + [|s|] else picks)
  {
  }

  /** The last element split off, so recursions can run from the back. */
  lemma SplitLast<T>(s: seq<T>)
    requires s != []
    ensures s == s[..|s| - 1] + [s[|s| - 1]]
  {
  }

  lemma Reassociate<T>(a: seq<T>, b: seq<T>, c: seq<T>)
    ensures a + (b + c) == (a + b) + c
  {
  }

  lemma TakeAppend<T>(s: seq<T>, x: T)
    ensures (s + [x])[..|s|] == s
    ensures (s + [x])[|s|] == x
  {
  }

  /** Cut a prefix in two and put it together again, in front of which `base` may stand. */
  lemma ExtendPrefix<T>(base: seq<T>, s: seq<T>, from: nat, to: nat)
    requires from <= to <= |s|
    ensures (base + s[..from]) + s[from..to] == base + s[..to]
  {
  }

  lemma ExtendPrefixByOne<T>(base: seq<T>, s: seq<T>, at: nat)
    requires at < |s|
    ensures (base + s[..at]) + [s[at]] == base + s[..at + 1]
  {
  }

  lemma FullPrefix<T>(s: seq<T>)
    ensures s[..|s|] == s
  {
  }

  lemma EmptyPrefix<T>(base: seq<T>, s: seq<T>)
    ensures base + s[..0] == base
  {
  }

  lemma NoDuplicatesJoin<T>(a: seq<T>, b: seq<T>)
    requires NoDuplicates(a) && NoDuplicates(b) && forall x :: x in b ==> x !in a
    ensures NoDuplicates(a + b)
  {
    forall i, j | 0 <= i < j < |a + b| ensures (a + b)[i] != (a + b)[j] {
      if i < |a| <= j {
        assert b[j - |a|] in b && a[i] in a;
      }
    }
  }

  lemma SubsetSize<T>(a: set<T>, b: set<T>)
    requires a <= b
    ensures |a| <= |b|
  {
    assert b == a + (b - a);
    assert |b| == |a| + |b - a|;
  }

  function Concat<T>(parts: seq<seq<T>>): seq<T> {
    if parts == [] then [] else Concat(parts[..|parts| - 1]) + parts[|parts| - 1]
  }

  lemma ConcatGrows<T>(parts: seq<seq<T>>, part: seq<T>)
    ensures Concat(parts + [part]) == Concat(parts) + part
  {
    TakeAppend(parts, part);
  }

  // --- text as bytes ------------------------------------------------------------------------------

  /** The UTF-8 length of a character. */
  function CharBytes(c: char): (n: nat)
    ensures 1 <= n <= 4
  {
    var code := c as int;
    if code < 0x80 then 1 else if code < 0x800 then 2 else if code < 0x10000 then 3 else 4
  }

  function ByteLength(s: string): nat {
    if s == "" then 0 else ByteLength(s[..|s| - 1]) + CharBytes(s[|s| - 1])
  }

  lemma {:induction false} ByteLengthBounds(s: string)
    ensures |s| <= ByteLength(s) <= 4 * |s|
  {
    if s != "" {
      ByteLengthBounds(s[..|s| - 1]);
    }
  }

  lemma {:induction false} ByteLengthOfAscii(s: string)
    requires forall i :: 0 <= i < |s| ==> s[i] as int < 0x80
    ensures ByteLength(s) == |s|
  {
    if s != "" {
      ByteLengthOfAscii(s[..|s| - 1]);
    }
  }

  /** The longest prefix within `max` bytes, so no character is cut in two. */
  function Cut(s: string, max: nat): (cut: string)
    ensures cut <= s && ByteLength(cut) <= max
    ensures ByteLength(s) <= max ==> cut == s
    ensures cut == s || ByteLength(s[..|cut| + 1]) > max
  {
    if ByteLength(s) <= max then s
    else
      var cut := Cut(s[..|s| - 1], max);
      assert cut != s[..|s| - 1] ==> s[..|s| - 1][..|cut| + 1] == s[..|cut| + 1];
      assert cut == s[..|s| - 1] ==> s[..|cut| + 1] == s;
      cut
  }

  // --- sums over maps -----------------------------------------------------------------------------

  ghost function SumOf<K, V>(m: map<K, V>, size: V -> nat): nat
    decreases |m|
  {
    if m == map[] then 0
    else
      var key :| key in m;
      size(m[key]) + SumOf(m - {key}, size)
  }

  /** The sum does not depend on the order the keys are taken in. */
  lemma {:induction false} SumSplit<K, V>(m: map<K, V>, size: V -> nat, key: K)
    requires key in m
    ensures SumOf(m, size) == size(m[key]) + SumOf(m - {key}, size)
    decreases |m|
  {
    var first :| first in m && SumOf(m, size) == size(m[first]) + SumOf(m - {first}, size);
    if first != key {
      SumSplit(m - {first}, size, key);
      SumSplit(m - {key}, size, first);
      assert m - {first} - {key} == m - {key} - {first};
    }
  }

  function Times(least: nat, n: nat): nat {
    if n == 0 then 0 else least + Times(least, n - 1)
  }

  lemma {:induction false} SumAtLeast<K, V>(m: map<K, V>, size: V -> nat, least: nat)
    requires forall key :: key in m ==> size(m[key]) >= least
    ensures SumOf(m, size) >= Times(least, |m|)
    decreases |m|
  {
    if m != map[] {
      var key :| key in m;
      SumSplit(m, size, key);
      SumAtLeast(m - {key}, size, least);
      assert m == (m - {key})[key := m[key]];
    }
  }
}
