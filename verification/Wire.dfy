/** Tagged fields of the Protocol Buffers wire format, as a syntax with a rendering. */
module Wire {
  import opened Varint

  datatype Body =
    | VarintBody(enc: seq<Byte>)
    | LenBody(lenEnc: seq<Byte>, bytes: seq<Byte>)
    | Fixed64(eight: seq<Byte>)
    | Fixed32(four: seq<Byte>)
  {
    function WireType(): nat {
      match this
      case VarintBody(_) => 0
      case Fixed64(_) => 1
      case LenBody(_, _) => 2
      case Fixed32(_) => 5
    }

    predicate WellFormed() {
      match this
      case VarintBody(enc) => IsVarint(enc)
      case LenBody(lenEnc, bytes) => IsVarint(lenEnc) && Base128(lenEnc) % TWO_64 == |bytes|
      case Fixed64(eight) => |eight| == 8
      case Fixed32(four) => |four| == 4
    }

    function Render(): seq<Byte> {
      match this
      case VarintBody(enc) => enc
      case LenBody(lenEnc, bytes) => lenEnc + bytes
      case Fixed64(eight) => eight
      case Fixed32(four) => four
    }
  }

  /** A whole field. The tag may be any varint, shortest or not. */
  datatype Field = Field(tag: seq<Byte>, body: Body) {
    function TagValue(): U64 {
      Base128(tag) % TWO_64
    }

    /** The field number as the parsers see it, after the cast to a C `int`. */
    function Number(): I32 {
      ToInt32(TagValue() / 8)
    }

    predicate WellFormed() {
      IsVarint(tag) && body.WellFormed() && TagValue() % 8 == body.WireType()
    }

    function Render(): (s: seq<Byte>)
      ensures WellFormed() ==> s != []
    {
      tag + body.Render()
    }
  }

  predicate AllWellFormed(fields: seq<Field>) {
    forall i | 0 <= i < |fields| :: fields[i].WellFormed()
  }

  function RenderAll(fields: seq<Field>): seq<Byte> {
    if fields == [] then [] else fields[0].Render() + RenderAll(fields[1..])
  }

  lemma {:induction false} RenderSnoc(fields: seq<Field>, fd: Field)
    ensures RenderAll(fields + [fd]) == RenderAll(fields) + fd.Render()
  {
    if fields == [] {
      assert RenderAll([fd]) == fd.Render() + RenderAll([]);
      assert fields + [fd] == [fd];
    } else {
      RenderSnoc(fields[1..], fd);
      var x, y, z := fields[0].Render(), RenderAll(fields[1..]), fd.Render();
      assert (fields + [fd])[1..] == fields[1..] + [fd];
      assert x + (y + z) == (x + y) + z;
    }
  }

  function VarintField(number: nat, v: nat): Field {
    Field(VarintBytes(8 * number), VarintBody(VarintBytes(v)))
  }

  function BytesField(number: nat, bytes: seq<Byte>): Field {
    Field(VarintBytes(8 * number + 2), LenBody(VarintBytes(|bytes|), bytes))
  }

  lemma WrittenTag(number: nat, wireType: nat)
    requires number < 16 && wireType < 8
    ensures var tag := VarintBytes(8 * number + wireType);
            && IsVarint(tag)
            && Base128(tag) % TWO_64 % 8 == wireType
            && ToInt32(Base128(tag) % TWO_64 / 8) == number
  {
    VarintBytesDenote(8 * number + wireType);
  }

  lemma WrittenFieldsWellFormed(number: nat, v: U64, bytes: seq<Byte>)
    requires number < 16 && |bytes| < TWO_64
    ensures VarintField(number, v).WellFormed() && VarintField(number, v).Number() == number
    ensures BytesField(number, bytes).WellFormed() && BytesField(number, bytes).Number() == number
  {
    WrittenTag(number, 0);
    WrittenTag(number, 2);
    VarintBytesDenote(v);
    VarintBytesDenote(|bytes|);
  }

  /** How many bytes `skip_field` takes after a tag of the given wire type. */
  function SkipSize(s: seq<Byte>, wireType: nat): (n: nat)
    ensures n <= |s|
  {
    if wireType == 0 then VarintSize(s)
    else if wireType == 2 then
      var n := VarintSize(s);
      if n + VarintValue(s) > |s| then |s| else n + VarintValue(s)
    else if wireType == 1 then if |s| < 8 then |s| else 8
    else if wireType == 5 then if |s| < 4 then |s| else 4
    else 0
  }

  method SkipField(data: seq<Byte>, off: nat, wireType: nat) returns (next: nat)
    requires off <= |data|
    ensures next == off + SkipSize(data[off..], wireType)
  {
    next := off;
    if wireType == 0 {
      var _, n := ReadVarint(data, off);
      next := n;
    } else if wireType == 2 {
      var l, n := ReadVarint(data, off);
      next := if n + l > |data| then |data| else n + l;
    } else if wireType == 1 {
      next := off + 8;
    } else if wireType == 5 {
      next := off + 4;
    }
    if next > |data| {
      next := |data|;
    }
  }

  lemma SkipWhole(b: Body, rest: seq<Byte>)
    requires b.WellFormed()
    ensures SkipSize(b.Render() + rest, b.WireType()) == |b.Render()|
  {
    match b
    case VarintBody(enc) => ReadComplete(enc, rest);
    case LenBody(lenEnc, bytes) =>
      assert b.Render() + rest == lenEnc + (bytes + rest);
      ReadComplete(lenEnc, bytes + rest);
    case Fixed64(_) =>
    case Fixed32(_) =>
  }

  /** Reading the tag of a rendered field leaves its body and what follows. */
  lemma ReadTag(fd: Field, rest: seq<Byte>)
    requires fd.WellFormed()
    ensures var s := fd.Render() + rest;
            && VarintSize(s) == |fd.tag|
            && VarintValue(s) == fd.TagValue()
            && s[|fd.tag|..] == fd.body.Render() + rest
            && s[|fd.Render()|..] == rest
  {
    assert fd.Render() + rest == fd.tag + (fd.body.Render() + rest);
    ReadComplete(fd.tag, fd.body.Render() + rest);
  }

  /** Reading the length of a rendered length-delimited body leaves its bytes. */
  lemma ReadLength(b: Body, rest: seq<Byte>)
    requires b.LenBody? && b.WellFormed()
    ensures var s := b.Render() + rest;
            && VarintSize(s) == |b.lenEnc|
            && VarintValue(s) == |b.bytes|
            && s[|b.lenEnc|..] == b.bytes + rest
            && (b.bytes + rest)[..|b.bytes|] == b.bytes
            && (b.bytes + rest)[|b.bytes|..] == rest
  {
    assert b.Render() + rest == b.lenEnc + (b.bytes + rest);
    ReadComplete(b.lenEnc, b.bytes + rest);
  }
}

/** The growable output buffer. */
module Buffers {
  import opened Varint
  import opened Wire

  class ByteBuf {
    var data: array<Byte>
    var len: nat

    ghost predicate Valid()
      reads this
    {
      len <= data.Length
    }

    ghost function Contents(): seq<Byte>
      requires Valid()
      reads this, data
    {
      data[..len]
    }

    constructor ()
      ensures Valid() && fresh(data) && Contents() == []
    {
      data := new Byte[0];
      len := 0;
    }

    /** Doubles the capacity, from 256, until `extra` more bytes fit. */
    method Ensure(extra: nat)
      requires Valid()
      modifies this
      ensures Valid() && len == old(len) && data.Length >= len + extra
      ensures data == old(data) || fresh(data)
      ensures Contents() == old(Contents())
    {
      var need := len + extra;
      var ncap := if data.Length == 0 then 256 else data.Length;
      if need <= data.Length {
        return;
      }
      while ncap < need
        invariant ncap > 0
        decreases need - ncap
      {
        ncap := ncap * 2;
      }
      var grown := new Byte[ncap];
      forall i | 0 <= i < len {
        grown[i] := data[i];
      }
      data := grown;
    }

    method Add(p: seq<Byte>)
      requires Valid()
      modifies this, data
      ensures Valid() && (data == old(data) || fresh(data))
      ensures Contents() == old(Contents()) + p
    {
      Ensure(|p|);
      forall i | 0 <= i < |p| {
        data[len + i] := p[i];
      }
      len := len + |p|;
    }

    method AddVarint(value: nat)
      requires Valid()
      modifies this, data
      ensures Valid() && (data == old(data) || fresh(data))
      ensures Contents() == old(Contents()) + VarintBytes(value)
    {
      var v := value;
      ghost var start, done: seq<Byte> := Contents(), [];
      while v >= 128
        invariant Valid() && (data == old(data) || fresh(data))
        invariant Contents() == start + done
        invariant VarintBytes(value) == done + VarintBytes(v)
        decreases v
      {
        var b: Byte := v % 128 + 128;
        Flatten(done, [b], VarintBytes(v / 128), []);
        Flatten(start, done, [b], []);
        Add([b]);
        done := done + [b];
        v := v / 128;
      }
      Add([v]);
      Flatten(start, done, [v], []);
    }

    method AddKey(field: nat, wireType: nat)
      requires Valid() && wireType < 8
      modifies this, data
      ensures Valid() && (data == old(data) || fresh(data))
      ensures Contents() == old(Contents()) + VarintBytes(8 * field + wireType)
    {
      AddVarint(8 * field + wireType);
    }

    method AddBytes(field: nat, p: seq<Byte>)
      requires Valid()
      modifies this, data
      ensures Valid() && (data == old(data) || fresh(data))
      ensures Contents() == old(Contents()) + BytesField(field, p).Render()
    {
      ghost var start := Contents();
      AddKey(field, 2);
      AddVarint(|p|);
      if |p| > 0 {
        Add(p);
      }
      assert Contents() == start + VarintBytes(8 * field + 2) + VarintBytes(|p|) + p;
      Flatten(start, VarintBytes(8 * field + 2), VarintBytes(|p|), p);
    }

    method AddVarintField(field: nat, v: nat)
      requires Valid()
      modifies this, data
      ensures Valid() && (data == old(data) || fresh(data))
      ensures Contents() == old(Contents()) + VarintField(field, v).Render()
    {
      ghost var start := Contents();
      AddKey(field, 0);
      AddVarint(v);
      Flatten(start, VarintBytes(8 * field), VarintBytes(v), []);
    }
  }

  lemma Flatten(a: seq<Byte>, b: seq<Byte>, c: seq<Byte>, d: seq<Byte>)
    ensures a + b + c + d == a + (b + (c + d))
    ensures d == [] ==> a + b + c == a + (b + c)
  {
  }
}
