/** The byte encoding of a command's chain prefix: length-prefixed fields, three per step. */
module PrefixEncoding {
  import opened Prelude

  type Byte = x: int | 0 <= x < 256

  /** A chain step; `command` is the serialised definition, if the step is a command. */
  datatype Definition = Definition(id: seq<Byte>, source: seq<Byte>, command: Option<seq<Byte>>)

  const LENGTH_LIMIT := 0x1_0000_0000_0000_0000

  /** `n` in `width` bytes, least significant first; higher bits are dropped. */
  function LittleEndian(n: nat, width: nat): (out: seq<Byte>)
    ensures |out| == width
  {
    if width == 0 then [] else [n % 256] + LittleEndian(n / 256, width - 1)
  }

  function Power256(width: nat): nat {
    if width == 0 then 1 else 256 * Power256(width - 1)
  }

  lemma {:induction false} LittleEndianInjective(a: nat, b: nat, width: nat)
    requires a < Power256(width) && b < Power256(width)
    requires LittleEndian(a, width) == LittleEndian(b, width)
    ensures a == b
  {
    if width > 0 {
      var x, y := LittleEndian(a, width), LittleEndian(b, width);
      assert x[0] == y[0] && x[1..] == y[1..];
      assert x[1..] == LittleEndian(a / 256, width - 1) && y[1..] == LittleEndian(b / 256, width - 1);
      LittleEndianInjective(a / 256, b / 256, width - 1);
    }
  }

  function CommandBytes(d: Definition): seq<Byte> {
    if d.command.Some? then d.command.value else []
  }

  /** One field: its length in eight bytes, then its bytes. */
  function Field(value: seq<Byte>): seq<Byte> {
    LittleEndian(|value|, 8) + value
  }

  function FieldsOf(d: Definition): seq<seq<Byte>> {
    [d.id, d.source, CommandBytes(d)]
  }

  function Encoded(fields: seq<seq<Byte>>): seq<Byte> {
    if fields == [] then [] else Encoded(fields[..|fields| - 1]) + Field(fields[|fields| - 1])
  }

  function AllFields(prefix: seq<Definition>): seq<seq<Byte>> {
    if prefix == [] then [] else AllFields(prefix[..|prefix| - 1]) + FieldsOf(prefix[|prefix| - 1])
  }

  function PrefixBytes(prefix: seq<Definition>): seq<Byte> {
    Encoded(AllFields(prefix))
  }

  lemma EncodedAppend(fields: seq<seq<Byte>>, value: seq<Byte>)
    ensures Encoded(fields + [value]) == Encoded(fields) + Field(value)
  {
    TakeAppend(fields, value);
  }

  lemma {:induction false} EncodedConcat(a: seq<seq<Byte>>, b: seq<seq<Byte>>)
    ensures Encoded(a + b) == Encoded(a) + Encoded(b)
  {
    if b == [] {
      assert a + b == a;
    } else {
      EncodedConcat(a, b[..|b| - 1]);
      assert (a + b)[..|a + b| - 1] == a + b[..|b| - 1];
      Reassociate(Encoded(a), Encoded(b[..|b| - 1]), Field(b[|b| - 1]));
    }
  }

  method AppendFields(before: seq<Byte>, values: seq<seq<Byte>>) returns (encoded: seq<Byte>)
    ensures encoded == before + Encoded(values)
  {
    encoded := before;
    for j := 0 to |values|
      invariant encoded == before + Encoded(values[..j])
    {
      assert values[..j + 1] == values[..j] + [values[j]];
      EncodedAppend(values[..j], values[j]);
      encoded := encoded + LittleEndian(|values[j]|, 8);
      encoded := encoded + values[j];
    }
    assert values[..|values|] == values;
  }

  /** The building loop. */
  method BuildPrefixBytes(prefix: seq<Definition>) returns (encoded: seq<Byte>)
    ensures encoded == PrefixBytes(prefix)
  {
    encoded := [];
    for i := 0 to |prefix|
      invariant encoded == PrefixBytes(prefix[..i])
    {
      assert prefix[..i + 1][..i] == prefix[..i];
      EncodedConcat(AllFields(prefix[..i]), FieldsOf(prefix[i]));
      encoded := AppendFields(encoded, FieldsOf(prefix[i]));
    }
    assert prefix[..|prefix|] == prefix;
  }

  predicate Short(fields: seq<seq<Byte>>) {
    forall i :: 0 <= i < |fields| ==> |fields[i]| < LENGTH_LIMIT
  }

  /** A field can be read off the front of any bytes it starts. */
  lemma FieldIsPrefixFree(a: seq<Byte>, b: seq<Byte>, restA: seq<Byte>, restB: seq<Byte>)
    requires |a| < LENGTH_LIMIT && |b| < LENGTH_LIMIT
    requires Field(a) + restA == Field(b) + restB
    ensures a == b && restA == restB
  {
    var x, y := Field(a) + restA, Field(b) + restB;
    assert x[..8] == LittleEndian(|a|, 8) && y[..8] == LittleEndian(|b|, 8);
    assert Power256(8) == LENGTH_LIMIT;
    LittleEndianInjective(|a|, |b|, 8);
    assert x[8..8 + |a|] == a && y[8..8 + |b|] == b;
    assert x[8 + |a|..] == restA && y[8 + |b|..] == restB;
  }

  lemma {:induction false} EncodedFront(fields: seq<seq<Byte>>)
    requires fields != []
    ensures Encoded(fields) == Field(fields[0]) + Encoded(fields[1..])
  {
    var front, last := fields[..|fields| - 1], fields[|fields| - 1];
    if front != [] {
      EncodedFront(front);
      assert front[1..] == fields[1..][..|fields| - 2];
      Reassociate(Field(fields[0]), Encoded(front[1..]), Field(last));
    } else {
      assert Encoded(front) == [] && fields[1..] == [];
    }
  }

  lemma {:induction false} EncodedInjective(a: seq<seq<Byte>>, b: seq<seq<Byte>>)
    requires Short(a) && Short(b) && Encoded(a) == Encoded(b)
    ensures a == b
    decreases |a|
  {
    if a == [] || b == [] {
      if a != [] {
        EncodedFront(a);
      } else if b != [] {
        EncodedFront(b);
      }
    } else {
      EncodedFront(a);
      EncodedFront(b);
      FieldIsPrefixFree(a[0], b[0], Encoded(a[1..]), Encoded(b[1..]));
      EncodedInjective(a[1..], b[1..]);
      assert a == [a[0]] + a[1..] && b == [b[0]] + b[1..];
    }
  }

  lemma {:induction false} AllFieldsShape(prefix: seq<Definition>)
    ensures |AllFields(prefix)| == 3 * |prefix|
    ensures forall i :: 0 <= i < |prefix| ==>
      AllFields(prefix)[3 * i] == prefix[i].id && AllFields(prefix)[3 * i + 1] == prefix[i].source
      && AllFields(prefix)[3 * i + 2] == CommandBytes(prefix[i])
  {
    if prefix != [] {
      AllFieldsShape(prefix[..|prefix| - 1]);
    }
  }

  /** Same identity: step by step the same id, source and command bytes. */
  ghost predicate SameTriples(a: seq<Definition>, b: seq<Definition>) {
    && |a| == |b|
    && forall i :: 0 <= i < |a| ==>
      a[i].id == b[i].id && a[i].source == b[i].source && CommandBytes(a[i]) == CommandBytes(b[i])
  }

  ghost predicate ShortTriples(prefix: seq<Definition>) {
    forall i :: 0 <= i < |prefix| ==>
      |prefix[i].id| < LENGTH_LIMIT && |prefix[i].source| < LENGTH_LIMIT && |CommandBytes(prefix[i])| < LENGTH_LIMIT
  }

  lemma ShortFields(prefix: seq<Definition>)
    requires ShortTriples(prefix)
    ensures Short(AllFields(prefix))
  {
    AllFieldsShape(prefix);
    forall k | 0 <= k < |AllFields(prefix)| ensures |AllFields(prefix)[k]| < LENGTH_LIMIT {
      var i := k / 3;
      assert k == 3 * i || k == 3 * i + 1 || k == 3 * i + 2;
    }
  }

  lemma SameTriplesSameFields(a: seq<Definition>, b: seq<Definition>)
    requires SameTriples(a, b)
    ensures AllFields(a) == AllFields(b)
  {
    AllFieldsShape(a);
    AllFieldsShape(b);
    forall k | 0 <= k < 3 * |a| ensures AllFields(a)[k] == AllFields(b)[k] {
      var i := k / 3;
      assert k == 3 * i || k == 3 * i + 1 || k == 3 * i + 2;
      assert AllFields(b)[3 * i] == b[i].id;
    }
  }

  /** Two prefixes share their bytes exactly when they are the same triples, for any number of steps. */
  lemma PrefixBytesInjective(a: seq<Definition>, b: seq<Definition>)
    requires ShortTriples(a) && ShortTriples(b)
    ensures PrefixBytes(a) == PrefixBytes(b) <==> SameTriples(a, b)
  {
    AllFieldsShape(a);
    AllFieldsShape(b);
    ShortFields(a);
    ShortFields(b);
    if PrefixBytes(a) == PrefixBytes(b) {
      EncodedInjective(AllFields(a), AllFields(b));
      forall i | 0 <= i < |a|
        ensures a[i].id == b[i].id && a[i].source == b[i].source && CommandBytes(a[i]) == CommandBytes(b[i])
      {
        assert AllFields(a)[3 * i] == AllFields(b)[3 * i];
      }
    } else if SameTriples(a, b) {
      SameTriplesSameFields(a, b);
    }
  }
}
