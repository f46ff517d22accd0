/** The frame on the wire, byte by byte: what each field number means and what is written. */
module FrameBytes {
  import opened Sequences
  import opened Wrappers
  import opened Varint
  import opened Wire
  import opened Frames

  // ----- numbers

  /** The two examples of the Encoding guide, read and written. */
  lemma GuideExamples()
    ensures Base128([0x96, 0x01]) == 150 && VarintBytes(150) == [0x96, 0x01]
    ensures Base128([0x01]) == 1 && VarintBytes(1) == [0x01]
  {
    var two: seq<Byte> := [0x96, 0x01];
    assert two[1..] == [0x01] && Base128([]) == 0;
    assert Base128([0x01]) == 1 + 128 * Base128([]);
  }

  /** The cast to 32 bits keeps the value modulo 2^32 and lands in the signed range. */
  lemma ToInt32Exact(v: nat)
    ensures -0x8000_0000 <= ToInt32(v) < 0x8000_0000
    ensures exists q: int :: ToInt32(v) == v - q * 0x1_0000_0000
  {
    var q := v / TWO_32;
    assert v == q * TWO_32 + v % TWO_32;
    assert ToInt32(v) == v - q * 0x1_0000_0000 || ToInt32(v) == v - (q + 1) * 0x1_0000_0000;
  }

  // ----- reading: one lemma for each known field

  predicate IsScalar(fd: Field, number: int) {
    fd.WellFormed() && fd.body.VarintBody? && fd.Number() == number
  }

  predicate IsBytes(fd: Field, number: int) {
    fd.WellFormed() && fd.body.LenBody? && fd.Number() == number
  }

  lemma SeqIdRead(fd: Field, rest: seq<Byte>, f: Frame)
    requires IsScalar(fd, 1)
    ensures ParseFields(fd.Render() + rest, f)
         == ParseFields(rest, Frame(Base128(fd.body.enc) % 0x1_0000_0000_0000_0000, f.logId, f.service, f.method_,
                                    f.headers, f.payloadType, f.payload))
  {
    StepRendered(fd, rest, f);
  }

  lemma LogIdRead(fd: Field, rest: seq<Byte>, f: Frame)
    requires IsScalar(fd, 2)
    ensures ParseFields(fd.Render() + rest, f)
         == ParseFields(rest, Frame(f.seqId, Base128(fd.body.enc) % 0x1_0000_0000_0000_0000, f.service, f.method_,
                                    f.headers, f.payloadType, f.payload))
  {
    StepRendered(fd, rest, f);
  }

  lemma ServiceRead(fd: Field, rest: seq<Byte>, f: Frame)
    requires IsScalar(fd, 3)
    ensures ParseFields(fd.Render() + rest, f)
         == ParseFields(rest, Frame(f.seqId, f.logId, ToInt32(Base128(fd.body.enc) % 0x1_0000_0000_0000_0000), f.method_,
                                    f.headers, f.payloadType, f.payload))
  {
    StepRendered(fd, rest, f);
  }

  lemma MethodRead(fd: Field, rest: seq<Byte>, f: Frame)
    requires IsScalar(fd, 4)
    ensures ParseFields(fd.Render() + rest, f)
         == ParseFields(rest, Frame(f.seqId, f.logId, f.service, ToInt32(Base128(fd.body.enc) % 0x1_0000_0000_0000_0000),
                                    f.headers, f.payloadType, f.payload))
  {
    StepRendered(fd, rest, f);
  }

  /** A header is appended while there are fewer than 64; the next one refuses the frame. */
  lemma HeaderRead(fd: Field, rest: seq<Byte>, f: Frame, h: Option<Header>)
    requires IsBytes(fd, 5) && ParseHeader(fd.body.bytes, Header(None, None)) == h
    ensures |f.headers| >= 64 || h == None ==> ParseFields(fd.Render() + rest, f) == None
    ensures |f.headers| < 64 && h.Some? ==>
              ParseFields(fd.Render() + rest, f) ==
              ParseFields(rest, Frame(f.seqId, f.logId, f.service, f.method_,
                                      f.headers + [h.value], f.payloadType, f.payload))
  {
    StepRendered(fd, rest, f);
    hide ParseHeader;
  }

  lemma PayloadTypeRead(fd: Field, rest: seq<Byte>, f: Frame)
    requires IsBytes(fd, 7)
    ensures ParseFields(fd.Render() + rest, f)
         == ParseFields(rest, Frame(f.seqId, f.logId, f.service, f.method_,
                                    f.headers, Some(fd.body.bytes), f.payload))
  {
    StepRendered(fd, rest, f);
  }

  lemma PayloadRead(fd: Field, rest: seq<Byte>, f: Frame)
    requires IsBytes(fd, 8)
    ensures ParseFields(fd.Render() + rest, f)
         == ParseFields(rest, Frame(f.seqId, f.logId, f.service, f.method_,
                                    f.headers, f.payloadType, fd.body.bytes))
  {
    StepRendered(fd, rest, f);
  }

  lemma HeaderKeyRead(fd: Field, rest: seq<Byte>, h: Header)
    requires IsBytes(fd, 1)
    ensures ParseHeader(fd.Render() + rest, h) == ParseHeader(rest, Header(Some(fd.body.bytes), h.value))
  {
    StepRenderedHeader(fd, rest, h);
  }

  lemma HeaderValueRead(fd: Field, rest: seq<Byte>, h: Header)
    requires IsBytes(fd, 2)
    ensures ParseHeader(fd.Render() + rest, h) == ParseHeader(rest, Header(h.key, Some(fd.body.bytes)))
  {
    StepRenderedHeader(fd, rest, h);
  }

  // ----- reading: what is cut short

  /** A tag and a length, each a complete varint, and the bytes that are there. */
  predicate IsCut(tag: seq<Byte>, enc: seq<Byte>, bytes: seq<Byte>) {
    IsVarint(tag) && Base128(tag) % TWO_64 % 8 == 2 && IsVarint(enc) && Base128(enc) % TWO_64 > |bytes|
  }

  function NumberOf(tag: seq<Byte>): int {
    ToInt32(Base128(tag) % TWO_64 / 8)
  }

  lemma ReadCut(tag: seq<Byte>, enc: seq<Byte>, bytes: seq<Byte>)
    requires IsCut(tag, enc, bytes)
    ensures var s := tag + enc + bytes;
            && s != [] && VarintValue(s) == Base128(tag) % TWO_64 && s[VarintSize(s)..] == enc + bytes
            && VarintValue(enc + bytes) == Base128(enc) % TWO_64
            && (enc + bytes)[VarintSize(enc + bytes)..] == bytes
            && SkipSize(enc + bytes, 2) == |enc + bytes|
  {
    ReadComplete(tag, enc + bytes);
    ReadComplete(enc, bytes);
    assert tag + enc + bytes == tag + (enc + bytes);
  }

  /** A known length-delimited field that announces more bytes than there are refuses the
      frame; an unknown one is skipped to the end. */
  lemma CutField(tag: seq<Byte>, enc: seq<Byte>, bytes: seq<Byte>, f: Frame)
    requires IsCut(tag, enc, bytes)
    ensures ParseFields(tag + enc + bytes, f) == if NumberOf(tag) in {5, 7, 8} then None else Some(f)
  {
    ReadCut(tag, enc, bytes);
    assert (enc + bytes)[|enc + bytes|..] == [];
    hide VarintValue, VarintSize, SkipSize, Base128, ToInt32, ParseHeader;
  }

  /** Inside a header every such field refuses, whatever its number. */
  lemma CutHeaderField(tag: seq<Byte>, enc: seq<Byte>, bytes: seq<Byte>, h: Header)
    requires IsCut(tag, enc, bytes)
    ensures ParseHeader(tag + enc + bytes, h) == None
  {
    ReadCut(tag, enc, bytes);
    hide VarintValue, VarintSize, Base128, ToInt32;
  }

  /** Fixed-size fields are skipped, cut short or not; wire types without a size skip nothing. */
  lemma FixedSkipped(tag: seq<Byte>, rest: seq<Byte>, f: Frame)
    requires IsVarint(tag) && Base128(tag) % TWO_64 % 8 !in {0, 2}
    ensures var wireType := Base128(tag) % TWO_64 % 8;
            var size := if wireType == 1 then 8 else if wireType == 5 then 4 else 0;
            ParseFields(tag + rest, f) == ParseFields(if size > |rest| then [] else rest[size..], f)
  {
    ReadComplete(tag, rest);
    var size := SkipSize(rest, Base128(tag) % TWO_64 % 8);
    assert size == |rest| ==> rest[size..] == [];
    hide VarintValue, VarintSize, Base128, ToInt32, ParseHeader;
  }

  // ----- writing

  lemma {:induction false} CStringIs(s: seq<Byte>) returns (n: nat)
    ensures n <= |s| && CString(s) == s[..n] && 0 !in s[..n] && (n < |s| ==> s[n] == 0)
  {
    if s == [] || s[0] == 0 {
      n := 0;
    } else {
      var m := CStringIs(s[1..]);
      n := m + 1;
      assert s[..n] == [s[0]] + s[1..][..m];
    }
  }

  /** A length-delimited field on the wire. */
  function Delimited(tag: Byte, bytes: seq<Byte>): seq<Byte> {
    [tag] + VarintBytes(|bytes|) + bytes
  }

  lemma OneByteVarint(v: nat)
    requires v < 128
    ensures VarintBytes(v) == [v]
  {
  }

  lemma DelimitedIs(number: nat, bytes: seq<Byte>)
    requires number < 15
    ensures BytesField(number, bytes).Render() == Delimited(8 * number + 2, bytes)
  {
    OneByteVarint(8 * number + 2);
    Reassociate([8 * number + 2], VarintBytes(|bytes|), bytes);
  }

  /** The bytes of a whole header, and nothing of one with a missing part. */
  function HeaderBytes(h: Header): seq<Byte> {
    if h.key.Some? && h.value.Some? then
      Delimited(0x2A, Delimited(0x0A, CString(h.key.value)) + Delimited(0x12, CString(h.value.value)))
    else []
  }

  function HeadersBytes(hs: seq<Header>): seq<Byte> {
    if hs == [] then [] else HeaderBytes(hs[0]) + HeadersBytes(hs[1..])
  }

  lemma RenderOne(fd: Field)
    ensures RenderAll([fd]) == fd.Render()
  {
    assert [fd][1..] == [] && fd.Render() + [] == fd.Render();
  }

  lemma {:induction false} RenderAppend(a: seq<Field>, b: seq<Field>)
    ensures RenderAll(a + b) == RenderAll(a) + RenderAll(b)
  {
    if a == [] {
      assert a + b == b;
    } else {
      RenderAppend(a[1..], b);
      assert (a + b)[1..] == a[1..] + b;
      Reassociate(a[0].Render(), RenderAll(a[1..]), RenderAll(b));
    }
  }

  lemma HeaderWritten(h: Header)
    ensures RenderAll(HeaderField(h)) == HeaderBytes(h)
  {
    if Complete(h) {
      var k, v := BytesField(1, CString(h.key.value)), BytesField(2, CString(h.value.value));
      assert HeaderFields(h) == [k] + [v];
      RenderAppend([k], [v]);
      RenderOne(k);
      RenderOne(v);
      DelimitedIs(1, CString(h.key.value));
      DelimitedIs(2, CString(h.value.value));
      RenderOne(BytesField(5, RenderAll(HeaderFields(h))));
      DelimitedIs(5, RenderAll(HeaderFields(h)));
    }
  }

  lemma {:induction false} HeadersWritten(hs: seq<Header>)
    ensures RenderAll(HeadersFields(hs)) == HeadersBytes(hs)
  {
    if hs != [] {
      HeaderWritten(hs[0]);
      HeadersWritten(hs[1..]);
      RenderAppend(HeaderField(hs[0]), HeadersFields(hs[1..]));
    }
  }

  lemma ScalarWritten(number: nat, v: nat)
    requires number < 16
    ensures VarintField(number, v).Render() == [8 * number] + VarintBytes(v)
  {
    OneByteVarint(8 * number);
  }

  /** The bytes of an encoded frame: the four numbers, the headers, the payload type if there
      is one, and the payload, each behind its tag byte. */
  lemma FrameWritten(f: Frame)
    ensures RenderAll(FrameFields(f)) ==
              ([0x08] + VarintBytes(f.seqId)) + ([0x10] + VarintBytes(f.logId))
            + ([0x18] + VarintBytes(SignExtend(f.service))) + ([0x20] + VarintBytes(SignExtend(f.method_)))
            + HeadersBytes(f.headers)
            + (if f.payloadType.Some? then Delimited(0x3A, CString(f.payloadType.value)) else [])
            + Delimited(0x42, f.payload)
  {
    ScalarsWritten(f);
    HeadersWritten(f.headers);
    KindWritten(f);
    RenderOne(BytesField(8, f.payload));
    DelimitedIs(8, f.payload);
    var scalars, headers, kind, last := ScalarFields(f), HeadersFields(f.headers), KindFields(f), [BytesField(8, f.payload)];
    assert FrameFields(f) == scalars + headers + kind + last;
    hide *;
    RenderAppend(scalars, headers);
    RenderAppend(scalars + headers, kind);
    RenderAppend(scalars + headers + kind, last);
  }

  lemma ScalarsWritten(f: Frame)
    ensures RenderAll(ScalarFields(f)) ==
              ([0x08] + VarintBytes(f.seqId)) + ([0x10] + VarintBytes(f.logId))
            + ([0x18] + VarintBytes(SignExtend(f.service))) + ([0x20] + VarintBytes(SignExtend(f.method_)))
  {
    var fs := ScalarFields(f);
    assert fs == [fs[0]] + [fs[1]] + [fs[2]] + [fs[3]];
    ScalarWritten(1, f.seqId);
    ScalarWritten(2, f.logId);
    ScalarWritten(3, SignExtend(f.service));
    ScalarWritten(4, SignExtend(f.method_));
    hide VarintBytes, SignExtend, RenderAll, VarintField;
    RenderOne(fs[0]);
    RenderOne(fs[1]);
    RenderOne(fs[2]);
    RenderOne(fs[3]);
    RenderAppend([fs[0]], [fs[1]]);
    RenderAppend([fs[0]] + [fs[1]], [fs[2]]);
    RenderAppend([fs[0]] + [fs[1]] + [fs[2]], [fs[3]]);
  }

  lemma KindWritten(f: Frame)
    ensures RenderAll(KindFields(f)) ==
            if f.payloadType.Some? then Delimited(0x3A, CString(f.payloadType.value)) else []
  {
    if f.payloadType.Some? {
      RenderOne(BytesField(7, CString(f.payloadType.value)));
      DelimitedIs(7, CString(f.payloadType.value));
    }
  }
}
