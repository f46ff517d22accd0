/** The Protocol Buffers wire format as written and read by the Feishu and DingTalk
    long-connection clients: base-128 varints, tagged fields, and the frame message. */

module Wrappers {
  datatype Option<+T> = None | Some(value: T)
}

module Sequences {
  lemma Reassociate<T>(a: seq<T>, b: seq<T>, c: seq<T>)
    ensures a + b + c == a + (b + c)
  {
  }

  function Without<T>(s: seq<T>, at: nat): seq<T>
    requires at < |s|
  {
    s[..at] + s[at + 1..]
  }

  lemma WithoutAt<T>(s: seq<T>, at: nat)
    requires at < |s|
    ensures |Without(s, at)| == |s| - 1
    ensures forall i | 0 <= i < at :: Without(s, at)[i] == s[i]
    ensures forall i | at <= i < |s| - 1 :: Without(s, at)[i] == s[i + 1]
  {
  }
}

/** Base-128 varints: the arithmetic meaning of a varint, its scanner and its writer. */
module Varint {
  type Byte = b: int | 0 <= b < 256

  const TWO_64 := 0x1_0000_0000_0000_0000
  const TWO_32 := 0x1_0000_0000

  type U64 = v: int | 0 <= v < TWO_64
  type I32 = v: int | -0x8000_0000 <= v < 0x8000_0000

  function ToInt32(v: nat): I32 {
    var w := v % TWO_32;
    if w < 0x8000_0000 then w else w - TWO_32
  }

  /** A C `int32_t` widened to `uint64_t`: negative values are sign-extended. */
  function SignExtend(v: I32): U64 {
    if v < 0 then TWO_64 + v else v
  }

  lemma SignExtendTruncates(v: I32)
    ensures ToInt32(SignExtend(v)) == v
  {
    if v < 0 {
      assert TWO_64 + v == (TWO_32 - 1) * TWO_32 + (TWO_32 + v);
    }
  }

  function Pow128(n: nat): (p: nat)
    ensures p > 0
  {
    if n == 0 then 1 else 128 * Pow128(n - 1)
  }

  /** The number denoted by a group of varint bytes, least significant first. */
  function Base128(bs: seq<Byte>): nat {
    if bs == [] then 0 else bs[0] % 128 + 128 * Base128(bs[1..])
  }

  lemma {:induction false} Base128Snoc(bs: seq<Byte>, b: Byte)
    ensures Base128(bs + [b]) == Base128(bs) + b % 128 * Pow128(|bs|)
  {
    if bs == [] {
      assert bs + [b] == [b];
      assert Base128([b]) == b % 128 + 128 * Base128([]);
    } else {
      Base128Snoc(bs[1..], b);
      assert (bs + [b])[1..] == bs[1..] + [b];
      var c, p, x := b % 128, Pow128(|bs| - 1), Base128(bs[1..]);
      assert 128 * (x + c * p) == 128 * x + c * (128 * p);
    }
  }

  /** A complete varint: continuation bit set on every byte but the last. */
  predicate IsVarint(bs: seq<Byte>) {
    && bs != []
    && bs[|bs| - 1] < 128
    && forall i | 0 <= i < |bs| - 1 :: bs[i] >= 128
  }

  /** How many bytes a scan takes: through the first byte below 0x80, or everything. */
  function VarintSize(s: seq<Byte>): (n: nat)
    ensures n <= |s|
    ensures s != [] ==> n > 0
  {
    if s == [] then 0 else if s[0] < 128 then 1 else 1 + VarintSize(s[1..])
  }

  function VarintValue(s: seq<Byte>): U64 {
    Base128(s[..VarintSize(s)]) % TWO_64
  }

  lemma {:induction false} VarintSizeIsFirstStop(s: seq<Byte>, n: nat)
    requires n <= |s|
    requires forall i | 0 <= i < n :: s[i] >= 128
    ensures n < |s| && s[n] < 128 ==> VarintSize(s) == n + 1
    ensures n == |s| ==> VarintSize(s) == n
  {
    if n > 0 {
      VarintSizeIsFirstStop(s[1..], n - 1);
    }
  }

  /** Scanning is local: bytes after a complete varint do not change what is read. */
  lemma ReadComplete(bs: seq<Byte>, rest: seq<Byte>)
    requires IsVarint(bs)
    ensures VarintSize(bs + rest) == |bs|
    ensures VarintValue(bs + rest) == Base128(bs) % TWO_64
    ensures (bs + rest)[|bs|..] == rest
  {
    VarintSizeIsFirstStop(bs + rest, |bs| - 1);
    assert (bs + rest)[..|bs|] == bs;
  }

  function VarintBytes(v: nat): seq<Byte> {
    if v >= 128 then [v % 128 + 128] + VarintBytes(v / 128) else [v]
  }

  lemma {:induction false} VarintBytesDenote(v: nat)
    ensures IsVarint(VarintBytes(v))
    ensures Base128(VarintBytes(v)) == v
  {
    if v >= 128 {
      VarintBytesDenote(v / 128);
      var t := VarintBytes(v / 128);
      assert ([v % 128 + 128] + t)[1..] == t;
    } else {
      assert Base128([v]) == v % 128 + 128 * Base128([]);
    }
  }

  /** The writer emits the shortest varint of its value. */
  lemma {:induction false} VarintBytesShortest(v: nat, bs: seq<Byte>)
    requires IsVarint(bs) && Base128(bs) == v
    ensures |VarintBytes(v)| <= |bs|
  {
    if v >= 128 {
      if |bs| == 1 {
        assert false;
      }
      VarintBytesShortest(v / 128, bs[1..]);
    }
  }

  /** Reading undoes writing, for every 64-bit value and whatever follows. */
  lemma VarintRoundTrip(v: U64, rest: seq<Byte>)
    ensures VarintValue(VarintBytes(v) + rest) == v
    ensures VarintSize(VarintBytes(v) + rest) == |VarintBytes(v)|
  {
    VarintBytesDenote(v);
    ReadComplete(VarintBytes(v), rest);
  }

  /** The scanner. `value |= (b & 0x7f) << shift` sets only bits at or above `shift`,
      so it is an addition; what is shifted past bit 63 is lost. */
  method ReadVarint(data: seq<Byte>, off: nat) returns (value: U64, next: nat)
    requires off <= |data|
    ensures next == off + VarintSize(data[off..])
    ensures value == VarintValue(data[off..])
  {
    value, next := 0, off;
    ghost var s := data[off..];
    ghost var n := 0;
    var place: int := 1;
    while next < |data|
      invariant next == off + n && n <= |s|
      invariant forall i | 0 <= i < n :: s[i] >= 128
      invariant place == Pow128(n)
      invariant value == Base128(s[..n]) % TWO_64
    {
      var b: int := data[next];
      next := next + 1;
      Base128Snoc(s[..n], b);
      assert s[..n] + [b] == s[..n + 1];
      AddMod(Base128(s[..n]), (b % 128) * place);
      value := (value + (b % 128) * place) % TWO_64;
      if b < 128 {
        VarintSizeIsFirstStop(s, n);
        return;
      }
      place := place * 128;
      n := n + 1;
    }
    VarintSizeIsFirstStop(s, n);
  }

  lemma AddMod(x: nat, y: nat)
    ensures (x % TWO_64 + y) % TWO_64 == (x + y) % TWO_64
  {
    var q := x / TWO_64;
    assert x + y == (x % TWO_64 + y) + q * TWO_64;
    ModShift(x % TWO_64 + y, q);
  }

  lemma ModShift(a: nat, q: nat)
    ensures (a + q * TWO_64) % TWO_64 == a % TWO_64
  {
    var d, r := a / TWO_64, a % TWO_64;
    assert a + q * TWO_64 == (d + q) * TWO_64 + r;
  }
}
