/** The frame message: its parser, its encoder, and how they undo each other. */
module Frames {
  import opened Sequences
  import opened Wrappers
  import opened Varint
  import opened Wire
  import opened Buffers

  const MAX_HEADERS := 64

  datatype Header = Header(key: Option<seq<Byte>>, value: Option<seq<Byte>>)

  datatype Frame = Frame(
    seqId: U64,
    logId: U64,
    service: I32,
    method_: I32,
    headers: seq<Header>,
    payloadType: Option<seq<Byte>>,
    payload: seq<Byte>)

  const ZERO := Frame(0, 0, 0, 0, [], None, [])
  const NO_HEADER := Header(None, None)

  datatype Step<T> = Fail | Next(msg: T, rest: seq<Byte>)

  // ----- parsing: one field, then all of them

  function HeaderStep(s: seq<Byte>, h: Header): (r: Step<Header>)
    requires s != []
    ensures r.Next? ==> |r.rest| < |s|
  {
    var k, t := VarintValue(s), s[VarintSize(s)..];
    var number, wireType := ToInt32(k / 8), k % 8;
    if wireType == 2 then
      var l, b := VarintValue(t), t[VarintSize(t)..];
      if l > |b| then Fail
      else if number == 1 then Next(h.(key := Some(b[..l])), b[l..])
      else if number == 2 then Next(h.(value := Some(b[..l])), b[l..])
      else Next(h, b[l..])
    else
      Next(h, t[SkipSize(t, wireType)..])
  }

  function ParseHeader(s: seq<Byte>, h: Header): Option<Header>
    decreases |s|
  {
    if s == [] then Some(h)
    else match HeaderStep(s, h)
      case Fail => None
      case Next(g, rest) => ParseHeader(rest, g)
  }

  /** Fields 1 to 4 hold the scalars; the two 32-bit ones keep the low half. */
  function SetScalar(number: int, v: U64, f: Frame): Frame
    requires 1 <= number <= 4
  {
    if number == 1 then f.(seqId := v)
    else if number == 2 then f.(logId := v)
    else if number == 3 then f.(service := ToInt32(v))
    else f.(method_ := ToInt32(v))
  }

  function FrameStep(s: seq<Byte>, f: Frame): (r: Step<Frame>)
    requires s != []
    ensures r.Next? ==> |r.rest| < |s|
  {
    var k, t := VarintValue(s), s[VarintSize(s)..];
    var number, wireType := ToInt32(k / 8), k % 8;
    var v, b := VarintValue(t), t[VarintSize(t)..];
    if 1 <= number <= 4 && wireType == 0 then Next(SetScalar(number, v, f), b)
    else if number == 5 && wireType == 2 then
      if v > |b| || |f.headers| >= MAX_HEADERS then Fail
      else match ParseHeader(b[..v], NO_HEADER)
        case None => Fail
        case Some(h) => Next(f.(headers := f.headers + [h]), b[v..])
    else if number == 7 && wireType == 2 then
      if v > |b| then Fail else Next(f.(payloadType := Some(b[..v])), b[v..])
    else if number == 8 && wireType == 2 then
      if v > |b| then Fail else Next(f.(payload := b[..v]), b[v..])
    else Next(f, t[SkipSize(t, wireType)..])
  }

  function ParseFields(s: seq<Byte>, f: Frame): Option<Frame>
    decreases |s|
  {
    if s == [] then Some(f)
    else match FrameStep(s, f)
      case Fail => None
      case Next(g, rest) => ParseFields(rest, g)
  }

  /** A length and that many bytes, or None when fewer remain. */
  method ReadBytes(p: seq<Byte>, off: nat) returns (r: Option<seq<Byte>>, next: nat)
    requires off <= |p|
    ensures off <= next <= |p|
    ensures var t := p[off..];
            var l, b := VarintValue(t), t[VarintSize(t)..];
            if l > |b| then r == None else r == Some(b[..l]) && p[next..] == b[l..]
  {
    var l, b := ReadVarint(p, off);
    assert p[off..][VarintSize(p[off..])..] == p[b..];
    if b + l > |p| {
      return None, |p|;
    }
    next := b + l;
    assert p[b..][..l] == p[b..next] && p[b..][l..] == p[next..];
    return Some(p[b..next]), next;
  }

  /** The body of the header loop: one field at `off`. None is a refusal. */
  method ParseHeaderField(p: seq<Byte>, off: nat, h: Header) returns (r: Option<Header>, next: nat)
    requires off < |p|
    ensures off < next <= |p|
    ensures HeaderStep(p[off..], h) == match r { case None => Fail case Some(g) => Next(g, p[next..]) }
  {
    var k, o := ReadVarint(p, off);
    var number, wireType := ToInt32(k / 8), k % 8;
    assert p[off..][VarintSize(p[off..])..] == p[o..];
    if wireType == 2 {
      var bytes, after := ReadBytes(p, o);
      next := after;
      if bytes.None? {
        return None, |p|;
      }
      if number == 1 {
        r := Some(h.(key := bytes));
      } else if number == 2 {
        r := Some(h.(value := bytes));
      } else {
        r := Some(h);
      }
    } else {
      next := SkipField(p, o, wireType);
      assert p[o..][SkipSize(p[o..], wireType)..] == p[next..];
      r := Some(h);
    }
  }

  method ParseHeaderMsg(p: seq<Byte>) returns (r: Option<Header>)
    ensures r == ParseHeader(p, NO_HEADER)
  {
    var h, off := NO_HEADER, 0;
    while off < |p|
      invariant off <= |p|
      invariant ParseHeader(p, NO_HEADER) == ParseHeader(p[off..], h)
    {
      var g, next := ParseHeaderField(p, off, h);
      if g.None? {
        return None;
      }
      h, off := g.value, next;
    }
    return Some(h);
  }

  /** The body of the frame loop: one field at `off`. None is a refusal. */
  method ParseField(p: seq<Byte>, off: nat, f: Frame) returns (r: Option<Frame>, next: nat)
    requires off < |p|
    ensures off < next <= |p|
    ensures FrameStep(p[off..], f) == match r { case None => Fail case Some(g) => Next(g, p[next..]) }
  {
    var k, o := ReadVarint(p, off);
    var number, wireType := ToInt32(k / 8), k % 8;
    assert p[off..][VarintSize(p[off..])..] == p[o..];
    if wireType == 0 && 1 <= number <= 4 {
      var v, b := ReadVarint(p, o);
      assert p[o..][VarintSize(p[o..])..] == p[b..];
      r, next := Some(SetScalar(number, v, f)), b;
    } else if wireType == 2 && (number == 5 || number == 7 || number == 8) {
      var bytes, after := ReadBytes(p, o);
      next := after;
      if bytes.None? {
        return None, |p|;
      }
      if number == 5 {
        if |f.headers| >= MAX_HEADERS {
          return None, next;
        }
        var h := ParseHeaderMsg(bytes.value);
        if h.None? {
          return None, next;
        }
        r := Some(f.(headers := f.headers + [h.value]));
      } else if number == 7 {
        r := Some(f.(payloadType := bytes));
      } else {
        r := Some(f.(payload := bytes.value));
      }
    } else {
      next := SkipField(p, o, wireType);
      assert p[o..][SkipSize(p[o..], wireType)..] == p[next..];
      r := Some(f);
    }
  }

  method ParseFrame(p: seq<Byte>) returns (r: Option<Frame>)
    ensures r == ParseFields(p, ZERO)
  {
    var f, off := ZERO, 0;
    while off < |p|
      invariant off <= |p|
      invariant ParseFields(p, ZERO) == ParseFields(p[off..], f)
    {
      var g, next := ParseField(p, off, f);
      if g.None? {
        return None;
      }
      f, off := g.value, next;
    }
    return Some(f);
  }

  // ----- what a whole field means

  function ApplyToHeader(fd: Field, h: Header): Header {
    if fd.body.LenBody? && fd.Number() == 1 then h.(key := Some(fd.body.bytes))
    else if fd.body.LenBody? && fd.Number() == 2 then h.(value := Some(fd.body.bytes))
    else h
  }

  function ApplyAllToHeader(fields: seq<Field>, h: Header): Header {
    if fields == [] then h else ApplyAllToHeader(fields[1..], ApplyToHeader(fields[0], h))
  }

  /** None when the frame must be refused: a 65th header, or a malformed one. */
  function Apply(fd: Field, f: Frame): Option<Frame> {
    match fd.body
    case VarintBody(enc) =>
      Some(if 1 <= fd.Number() <= 4 then SetScalar(fd.Number(), Base128(enc) % TWO_64, f) else f)
    case LenBody(_, bytes) =>
      if fd.Number() == 5 then
        if |f.headers| >= MAX_HEADERS then None
        else match ParseHeader(bytes, NO_HEADER)
          case None => None
          case Some(h) => Some(f.(headers := f.headers + [h]))
      else if fd.Number() == 7 then Some(f.(payloadType := Some(bytes)))
      else if fd.Number() == 8 then Some(f.(payload := bytes))
      else Some(f)
    case _ => Some(f)
  }

  function ApplyAll(fields: seq<Field>, f: Frame): Option<Frame> {
    if fields == [] then Some(f)
    else match Apply(fields[0], f)
      case None => None
      case Some(g) => ApplyAll(fields[1..], g)
  }

  /** Field numbers the frame parser gives a meaning to, with their wire types. */
  predicate Known(fd: Field) {
    || (fd.body.VarintBody? && 1 <= fd.Number() <= 4)
    || (fd.body.LenBody? && (fd.Number() == 5 || fd.Number() == 7 || fd.Number() == 8))
  }

  // ----- parsing whole fields is applying them

  lemma StepRenderedHeader(fd: Field, rest: seq<Byte>, h: Header)
    requires fd.WellFormed()
    ensures HeaderStep(fd.Render() + rest, h) == Next(ApplyToHeader(fd, h), rest)
  {
    ReadTag(fd, rest);
    var t := fd.body.Render() + rest;
    if fd.body.LenBody? {
      ReadLength(fd.body, rest);
    } else {
      SkipWhole(fd.body, rest);
      assert t[|fd.body.Render()|..] == rest;
    }
  }

  lemma {:induction false} ParseRenderedHeader(fields: seq<Field>, h: Header)
    requires AllWellFormed(fields)
    ensures ParseHeader(RenderAll(fields), h) == Some(ApplyAllToHeader(fields, h))
  {
    if fields != [] {
      StepRenderedHeader(fields[0], RenderAll(fields[1..]), h);
      ParseRenderedHeader(fields[1..], ApplyToHeader(fields[0], h));
    }
  }

  lemma StepRendered(fd: Field, rest: seq<Byte>, f: Frame)
    requires fd.WellFormed()
    ensures FrameStep(fd.Render() + rest, f) ==
            match Apply(fd, f) { case None => Fail case Some(g) => Next(g, rest) }
  {
    ReadTag(fd, rest);
    var t := fd.body.Render() + rest;
    if fd.body.LenBody? {
      ReadLength(fd.body, rest);
    }
    if fd.body.VarintBody? {
      ReadComplete(fd.body.enc, rest);
    }
    if !Known(fd) {
      SkipWhole(fd.body, rest);
      assert t[|fd.body.Render()|..] == rest;
    }
  }

  /** Compositionality: whole fields are applied one by one, then parsing continues on
      whatever bytes follow, whether or not those are well formed. */
  lemma {:induction false} ParseIsCompositional(fields: seq<Field>, rest: seq<Byte>, f: Frame)
    requires AllWellFormed(fields)
    ensures ParseFields(RenderAll(fields) + rest, f) ==
            match ApplyAll(fields, f) { case None => None case Some(g) => ParseFields(rest, g) }
  {
    if fields == [] {
      assert RenderAll(fields) + rest == rest;
    } else {
      var tail := RenderAll(fields[1..]) + rest;
      assert RenderAll(fields) + rest == fields[0].Render() + tail;
      StepRendered(fields[0], tail, f);
      match Apply(fields[0], f) {
        case None =>
        case Some(g) => ParseIsCompositional(fields[1..], rest, g);
      }
    }
  }

  /** A well-formed unknown field at any field boundary changes nothing. */
  lemma UnknownFieldIgnored(before: seq<Field>, unknown: Field, rest: seq<Byte>, f: Frame)
    requires AllWellFormed(before) && unknown.WellFormed() && !Known(unknown)
    ensures ParseFields(RenderAll(before) + unknown.Render() + rest, f) == ParseFields(RenderAll(before) + rest, f)
  {
    ParseIsCompositional(before, unknown.Render() + rest, f);
    ParseIsCompositional(before, rest, f);
    assert RenderAll(before) + unknown.Render() + rest == RenderAll(before) + (unknown.Render() + rest);
    match ApplyAll(before, f) {
      case None =>
      case Some(g) => StepRendered(unknown, rest, g);
    }
  }

  /** Equal apart from what field `n` holds. */
  predicate EqualBut(n: int, f: Frame, g: Frame)
    requires 1 <= n <= 4 || n == 7 || n == 8
  {
    if n <= 4 then SetScalar(n, 0, f) == SetScalar(n, 0, g)
    else if n == 7 then f.(payloadType := None) == g.(payloadType := None)
    else f.(payload := []) == g.(payload := [])
  }

  predicate EqualButIn(n: int, f: Option<Frame>, g: Option<Frame>)
    requires 1 <= n <= 4 || n == 7 || n == 8
  {
    if f.Some? && g.Some? then EqualBut(n, f.value, g.value) else f == g
  }

  lemma ApplyKeepsEqualBut(n: int, fd: Field, f: Frame, g: Frame)
    requires (1 <= n <= 4 || n == 7 || n == 8) && EqualBut(n, f, g)
    ensures EqualButIn(n, Apply(fd, f), Apply(fd, g))
    ensures Known(fd) && fd.Number() == n ==> Apply(fd, f) == Apply(fd, g) && Apply(fd, f).Some?
  {
    hide ParseHeader;
  }

  lemma {:induction false} ApplyAllKeepsEqualBut(n: int, fields: seq<Field>, f: Frame, g: Frame)
    requires (1 <= n <= 4 || n == 7 || n == 8) && EqualBut(n, f, g)
    ensures EqualButIn(n, ApplyAll(fields, f), ApplyAll(fields, g))
  {
    hide Apply, EqualBut;
    if fields != [] {
      ApplyKeepsEqualBut(n, fields[0], f, g);
      match Apply(fields[0], f) {
        case None =>
        case Some(f') => ApplyAllKeepsEqualBut(n, fields[1..], f', Apply(fields[0], g).value);
      }
    }
  }

  lemma ApplyChangesOnly(fd: Field, f: Frame)
    requires Known(fd) && fd.Number() != 5
    ensures Apply(fd, f).Some? && EqualBut(fd.Number(), Apply(fd, f).value, f)
  {
  }

  /** Last one wins: an earlier scalar or byte string of the same number is overwritten,
      whatever whole fields lie between and whatever bytes follow. */
  lemma LastOneWins(first: Field, middle: seq<Field>, second: Field, rest: seq<Byte>, f: Frame)
    requires first.WellFormed() && AllWellFormed(middle) && second.WellFormed()
    requires Known(first) && Known(second) && first.Number() == second.Number() != 5
    ensures ParseFields(first.Render() + (RenderAll(middle) + (second.Render() + rest)), f)
         == ParseFields(RenderAll(middle) + (second.Render() + rest), f)
  {
    var tail := second.Render() + rest;
    ApplyChangesOnly(first, f);
    var n, g := first.Number(), Apply(first, f).value;
    StepRendered(first, RenderAll(middle) + tail, f);
    ParseIsCompositional(middle, tail, g);
    ParseIsCompositional(middle, tail, f);
    ApplyAllKeepsEqualBut(n, middle, g, f);
    hide Apply, ApplyAll, FrameStep, EqualBut, Known;
    if ApplyAll(middle, f).Some? {
      var f', g' := ApplyAll(middle, f).value, ApplyAll(middle, g).value;
      ApplyKeepsEqualBut(n, second, g', f');
      StepRendered(second, rest, g');
      StepRendered(second, rest, f');
    }
  }

  // ----- encoding

  function CString(bytes: seq<Byte>): (s: seq<Byte>)
    ensures |s| <= |bytes|
  {
    if bytes == [] || bytes[0] == 0 then [] else [bytes[0]] + CString(bytes[1..])
  }

  function HeaderFields(h: Header): seq<Field>
    requires h.key.Some? && h.value.Some?
  {
    [BytesField(1, CString(h.key.value)), BytesField(2, CString(h.value.value))]
  }

  predicate Complete(h: Header) {
    h.key.Some? && h.value.Some?
  }

  /** A header with a missing part is not written. */
  function HeaderField(h: Header): seq<Field> {
    if Complete(h) then [BytesField(5, RenderAll(HeaderFields(h)))] else []
  }

  function HeadersFields(hs: seq<Header>): seq<Field> {
    if hs == [] then [] else HeaderField(hs[0]) + HeadersFields(hs[1..])
  }

  function ScalarFields(f: Frame): seq<Field> {
    [VarintField(1, f.seqId), VarintField(2, f.logId),
     VarintField(3, SignExtend(f.service)), VarintField(4, SignExtend(f.method_))]
  }

  function KindFields(f: Frame): seq<Field> {
    if f.payloadType.Some? then [BytesField(7, CString(f.payloadType.value))] else []
  }

  /** The fields of an encoded frame, in the order the encoder writes them. */
  function FrameFields(f: Frame): seq<Field> {
    ScalarFields(f)
    + HeadersFields(f.headers)
    + KindFields(f)
    + [BytesField(8, f.payload)]
  }

  lemma {:induction false} HeadersFieldsSnoc(hs: seq<Header>, h: Header)
    ensures HeadersFields(hs + [h]) == HeadersFields(hs) + HeaderField(h)
  {
    var all, z := hs + [h], HeaderField(h);
    if hs == [] {
      assert all[0] == h && all[1..] == [];
      assert HeadersFields(all) == z + [];
    } else {
      var x, y := HeaderField(hs[0]), HeadersFields(hs[1..]);
      HeadersFieldsSnoc(hs[1..], h);
      assert all[0] == hs[0] && all[1..] == hs[1..] + [h];
      assert x + (y + z) == (x + y) + z;
    }
  }

  method EncodeHeader(h: Header) returns (hb: ByteBuf)
    requires Complete(h)
    ensures fresh(hb) && hb.Valid() && fresh(hb.data) && hb.Contents() == RenderAll(HeaderFields(h))
  {
    hb := new ByteBuf();
    var fields := HeaderFields(h);
    hb.AddBytes(1, CString(h.key.value));
    hb.AddBytes(2, CString(h.value.value));
    RenderSnoc([], fields[0]);
    RenderSnoc([fields[0]], fields[1]);
    assert [] + [fields[0]] == [fields[0]] && [fields[0]] + [fields[1]] == fields;
  }

  /** One more field written is one more field in the rendering. */
  lemma WroteField(start: seq<Byte>, fields: seq<Field>, fd: Field, contents: seq<Byte>)
    requires contents == start + RenderAll(fields) + fd.Render()
    ensures contents == start + RenderAll(fields + [fd])
  {
    RenderSnoc(fields, fd);
    var x, y := RenderAll(fields), fd.Render();
    assert start + x + y == start + (x + y);
  }

  method EncodeHeaderField(h: Header, out: ByteBuf, ghost start: seq<Byte>, ghost fields: seq<Field>)
    requires out.Valid() && out.Contents() == start + RenderAll(fields)
    modifies out, out.data
    ensures out.Valid() && (out.data == old(out.data) || fresh(out.data))
    ensures out.Contents() == start + RenderAll(fields + HeaderField(h))
  {
    if Complete(h) {
      var hb := EncodeHeader(h);
      ghost var fd := BytesField(5, RenderAll(HeaderFields(h)));
      out.AddBytes(5, hb.data[..hb.len]);
      WroteField(start, fields, fd, out.Contents());
    } else {
      assert fields + [] == fields;
    }
  }

  method EncodeHeaders(hs: seq<Header>, out: ByteBuf, ghost start: seq<Byte>, ghost before: seq<Field>)
    requires out.Valid() && out.Contents() == start + RenderAll(before)
    modifies out, out.data
    ensures out.Valid() && (out.data == old(out.data) || fresh(out.data))
    ensures out.Contents() == start + RenderAll(before + HeadersFields(hs))
  {
    ghost var done := [];
    assert before + done == before;
    hide *;
    for i := 0 to |hs|
      invariant out.Valid() && (out.data == old(out.data) || fresh(out.data))
      invariant done == HeadersFields(hs[..i])
      invariant out.Contents() == start + RenderAll(before + done)
    {
      EncodeHeaderField(hs[i], out, start, before + done);
      Reassociate(before, done, HeaderField(hs[i]));
      assert hs[..i + 1] == hs[..i] + [hs[i]];
      HeadersFieldsSnoc(hs[..i], hs[i]);
      done := done + HeaderField(hs[i]);
    }
    assert hs[..|hs|] == hs;
  }

  method EncodeScalars(f: Frame, out: ByteBuf)
    requires out.Valid()
    modifies out, out.data
    ensures out.Valid() && (out.data == old(out.data) || fresh(out.data))
    ensures out.Contents() == old(out.Contents()) + RenderAll(ScalarFields(f))
  {
    ghost var start, fs := out.Contents(), ScalarFields(f);
    assert start == start + RenderAll([]);
    out.AddVarintField(1, f.seqId);
    WroteField(start, [], fs[0], out.Contents());
    out.AddVarintField(2, f.logId);
    WroteField(start, [] + [fs[0]], fs[1], out.Contents());
    out.AddVarintField(3, SignExtend(f.service));
    WroteField(start, [] + [fs[0]] + [fs[1]], fs[2], out.Contents());
    out.AddVarintField(4, SignExtend(f.method_));
    WroteField(start, [] + [fs[0]] + [fs[1]] + [fs[2]], fs[3], out.Contents());
    assert [] + [fs[0]] + [fs[1]] + [fs[2]] + [fs[3]] == fs;
  }

  method EncodePayload(f: Frame, out: ByteBuf, ghost start: seq<Byte>, ghost before: seq<Field>)
    requires out.Valid() && out.Contents() == start + RenderAll(before)
    modifies out, out.data
    ensures out.Valid() && (out.data == old(out.data) || fresh(out.data))
    ensures out.Contents() == start + RenderAll(before + KindFields(f) + [BytesField(8, f.payload)])
  {
    ghost var fields := before + KindFields(f);
    if f.payloadType.Some? {
      var s := CString(f.payloadType.value);
      out.AddBytes(7, s);
      WroteField(start, before, BytesField(7, s), out.Contents());
    } else {
      assert fields == before;
    }
    out.AddBytes(8, f.payload);
    WroteField(start, fields, BytesField(8, f.payload), out.Contents());
  }

  method EncodeFrame(f: Frame, out: ByteBuf)
    requires out.Valid()
    modifies out, out.data
    ensures out.Valid() && (out.data == old(out.data) || fresh(out.data))
    ensures out.Contents() == old(out.Contents()) + RenderAll(FrameFields(f))
  {
    ghost var start := out.Contents();
    EncodeScalars(f, out);
    EncodeHeaders(f.headers, out, start, ScalarFields(f));
    EncodePayload(f, out, start, ScalarFields(f) + HeadersFields(f.headers));
  }

  // ----- round trip

  /** What survives encoding: strings up to their first NUL, headers with both parts. */
  function CanonicalHeader(h: Header): (r: seq<Header>)
    ensures |r| <= 1
  {
    if Complete(h) then [Header(Some(CString(h.key.value)), Some(CString(h.value.value)))] else []
  }

  function CanonicalHeaders(hs: seq<Header>): (r: seq<Header>)
    ensures |r| <= |hs|
  {
    if hs == [] then [] else CanonicalHeader(hs[0]) + CanonicalHeaders(hs[1..])
  }

  function Canonical(f: Frame): Frame {
    f.(headers := CanonicalHeaders(f.headers),
       payloadType := if f.payloadType.Some? then Some(CString(f.payloadType.value)) else None)
  }

  predicate NulFree(s: seq<Byte>) {
    0 !in s
  }

  /** Checkable before encoding: no header half-filled, no NUL inside a string. */
  predicate Encodable(f: Frame) {
    && (forall i | 0 <= i < |f.headers| ::
          && Complete(f.headers[i])
          && NulFree(f.headers[i].key.value) && NulFree(f.headers[i].value.value))
    && (f.payloadType.Some? ==> NulFree(f.payloadType.value))
  }

  /** A frame as the C struct can hold it: at most 64 headers, sizes that fit 64 bits. */
  predicate Storable(f: Frame) {
    && |f.headers| <= 64
    && |f.payload| < TWO_64
    && (f.payloadType.Some? ==> |f.payloadType.value| < TWO_64)
    && forall h | h in f.headers :: StorableHeader(h)
  }

  predicate StorableHeader(h: Header) {
    Complete(h) ==>
      && |h.key.value| < TWO_64 && |h.value.value| < TWO_64
      && |RenderAll(HeaderFields(h))| < TWO_64
  }

  lemma {:induction false} CStringIdentity(s: seq<Byte>)
    ensures CString(s) == s <==> NulFree(s)
  {
    if s != [] && s[0] != 0 {
      CStringIdentity(s[1..]);
      assert s == [s[0]] + s[1..];
    }
  }

  lemma HeaderRoundTrip(h: Header)
    requires Complete(h) && |h.key.value| < TWO_64 && |h.value.value| < TWO_64
    ensures ParseHeader(RenderAll(HeaderFields(h)), NO_HEADER)
            == Some(Header(Some(CString(h.key.value)), Some(CString(h.value.value))))
  {
    var k, v := CString(h.key.value), CString(h.value.value);
    var fields := HeaderFields(h);
    assert fields == [BytesField(1, k), BytesField(2, v)];
    WrittenFieldsWellFormed(1, 0, k);
    WrittenFieldsWellFormed(2, 0, v);
    ParseRenderedHeader(fields, NO_HEADER);
    HeaderFieldsApplied(BytesField(1, k), BytesField(2, v), k, v);
    hide ParseHeader, RenderAll, ApplyAllToHeader, CString, BytesField, HeaderFields;
  }

  lemma HeaderFieldsApplied(first: Field, second: Field, k: seq<Byte>, v: seq<Byte>)
    requires first.Number() == 1 && second.Number() == 2
    requires first.body.LenBody? && first.body.bytes == k && second.body.LenBody? && second.body.bytes == v
    ensures ApplyAllToHeader([first, second], NO_HEADER) == Header(Some(k), Some(v))
  {
    hide Field.Number;
    var fields := [first, second];
    assert fields[1..] == [second] && [second][1..] == [];
    assert ApplyAllToHeader([second], ApplyToHeader(first, NO_HEADER))
        == ApplyAllToHeader([second][1..], ApplyToHeader(second, ApplyToHeader(first, NO_HEADER)));
  }

  lemma {:induction false} ApplyAllAppend(a: seq<Field>, b: seq<Field>, f: Frame)
    ensures ApplyAll(a + b, f) == match ApplyAll(a, f) { case None => None case Some(g) => ApplyAll(b, g) }
  {
    if a == [] {
      assert a + b == b;
    } else {
      assert (a + b)[1..] == a[1..] + b;
      match Apply(a[0], f) {
        case None =>
        case Some(g) => ApplyAllAppend(a[1..], b, g);
      }
    }
  }

  lemma HeaderFieldRoundTrip(h: Header, f: Frame)
    requires |f.headers| < MAX_HEADERS && StorableHeader(h)
    ensures AllWellFormed(HeaderField(h))
    ensures ApplyAll(HeaderField(h), f) == Some(f.(headers := f.headers + CanonicalHeader(h)))
  {
    if Complete(h) {
      var bytes := RenderAll(HeaderFields(h));
      WrittenFieldsWellFormed(5, 0, bytes);
      HeaderRoundTrip(h);
      ApplyOne(BytesField(5, bytes), f);
    } else {
      assert f.headers + [] == f.headers;
    }
  }

  lemma HeadersUnfold(hs: seq<Header>)
    requires hs != []
    ensures HeadersFields(hs) == HeaderField(hs[0]) + HeadersFields(hs[1..])
    ensures CanonicalHeaders(hs) == CanonicalHeader(hs[0]) + CanonicalHeaders(hs[1..])
  {
    hide HeaderField, CanonicalHeader;
  }

  lemma NoHeaders(f: Frame)
    ensures AllWellFormed(HeadersFields([]))
    ensures ApplyAll(HeadersFields([]), f) == Some(f.(headers := f.headers + CanonicalHeaders([])))
  {
    assert f.headers + [] == f.headers;
  }

  lemma WellFormedAppend(a: seq<Field>, b: seq<Field>)
    requires AllWellFormed(a) && AllWellFormed(b)
    ensures AllWellFormed(a + b)
  {
  }

  lemma {:induction false} HeadersRoundTrip(hs: seq<Header>, f: Frame)
    requires |f.headers| + |hs| <= MAX_HEADERS
    requires forall h | h in hs :: StorableHeader(h)
    ensures AllWellFormed(HeadersFields(hs))
    ensures ApplyAll(HeadersFields(hs), f) == Some(f.(headers := f.headers + CanonicalHeaders(hs)))
  {
    hide *;
    if hs == [] {
      NoHeaders(f);
    } else {
      var h, one, later := hs[0], CanonicalHeader(hs[0]), hs[1..];
      var g := f.(headers := f.headers + one);
      HeadersUnfold(hs);
      HeaderFieldRoundTrip(h, f);
      HeadersRoundTrip(later, g);
      ApplyAllAppend(HeaderField(h), HeadersFields(later), f);
      WellFormedAppend(HeaderField(h), HeadersFields(later));
      Reassociate(f.headers, one, CanonicalHeaders(later));
    }
  }

  lemma ApplyScalar(number: nat, fd: Field, v: U64, f: Frame)
    requires 1 <= number <= 4 && fd.Number() == number
    requires fd.body.VarintBody? && Base128(fd.body.enc) % TWO_64 == v
    ensures Apply(fd, f) == Some(SetScalar(number, v, f))
  {
    hide SetScalar, Base128;
  }

  lemma FieldBody(number: nat, v: U64)
    ensures var body := VarintField(number, v).body;
            body.VarintBody? && Base128(body.enc) % TWO_64 == v
  {
    VarintBytesDenote(v);
    hide VarintBytes, Base128;
  }

  lemma ScalarRoundTrip(number: nat, v: U64, f: Frame)
    requires 1 <= number <= 4
    ensures VarintField(number, v).WellFormed()
    ensures Apply(VarintField(number, v), f) == Some(SetScalar(number, v, f))
  {
    hide *;
    FieldBody(number, v);
    WrittenFieldsWellFormed(number, v, []);
    ApplyScalar(number, VarintField(number, v), v, f);
  }

  lemma ScalarsRoundTrip(f: Frame, g: Frame)
    ensures AllWellFormed(ScalarFields(f))
    ensures ApplyAll(ScalarFields(f), g)
            == Some(g.(seqId := f.seqId, logId := f.logId, service := f.service, method_ := f.method_))
  {
    SignExtendTruncates(f.service);
    SignExtendTruncates(f.method_);
    var fs := ScalarFields(f);
    var s, m := SignExtend(f.service), SignExtend(f.method_);
    var g1 := SetScalar(1, f.seqId, g);
    var g2 := SetScalar(2, f.logId, g1);
    var g3 := SetScalar(3, s, g2);
    ScalarRoundTrip(1, f.seqId, g);
    ScalarRoundTrip(2, f.logId, g1);
    ScalarRoundTrip(3, s, g2);
    ScalarRoundTrip(4, m, g3);
    ApplyOne(fs[3], g3);
    ApplyAllAppend([fs[2]], [fs[3]], g2);
    ApplyOne(fs[2], g2);
    ApplyAllAppend([fs[1]], [fs[2]] + [fs[3]], g1);
    ApplyOne(fs[1], g1);
    ApplyAllAppend([fs[0]], [fs[1]] + ([fs[2]] + [fs[3]]), g);
    ApplyOne(fs[0], g);
    assert fs == [fs[0]] + ([fs[1]] + ([fs[2]] + [fs[3]]));
  }

  lemma ApplyOne(fd: Field, f: Frame)
    ensures ApplyAll([fd], f) == Apply(fd, f)
  {
    assert [fd][1..] == [];
  }

  lemma BytesRoundTrip(number: nat, bytes: seq<Byte>, f: Frame)
    requires (number == 7 || number == 8) && |bytes| < TWO_64
    ensures BytesField(number, bytes).WellFormed()
    ensures Apply(BytesField(number, bytes), f)
            == Some(if number == 7 then f.(payloadType := Some(bytes)) else f.(payload := bytes))
  {
    WrittenFieldsWellFormed(number, 0, bytes);
  }

  lemma KindRoundTrip(f: Frame, g: Frame)
    requires f.payloadType.Some? ==> |f.payloadType.value| < TWO_64
    requires g.payloadType == None
    ensures AllWellFormed(KindFields(f))
    ensures ApplyAll(KindFields(f), g) == Some(g.(payloadType := Canonical(f).payloadType))
  {
    if f.payloadType.Some? {
      BytesRoundTrip(7, CString(f.payloadType.value), g);
      ApplyOne(KindFields(f)[0], g);
    }
  }

  lemma LastRoundTrip(f: Frame, g: Frame)
    requires |f.payload| < TWO_64
    ensures AllWellFormed([BytesField(8, f.payload)])
    ensures ApplyAll([BytesField(8, f.payload)], g) == Some(g.(payload := f.payload))
  {
    BytesRoundTrip(8, f.payload, g);
    ApplyOne(BytesField(8, f.payload), g);
    hide Apply, ApplyAll;
  }

  lemma CanonicalIs(f: Frame)
    ensures Canonical(f) == Frame(f.seqId, f.logId, f.service, f.method_, [] + CanonicalHeaders(f.headers),
                                  Canonical(f).payloadType, f.payload)
  {
    hide CanonicalHeaders;
    assert [] + CanonicalHeaders(f.headers) == CanonicalHeaders(f.headers);
  }

  lemma FrameFieldsRoundTrip(f: Frame)
    requires Storable(f)
    ensures AllWellFormed(FrameFields(f))
    ensures ApplyAll(FrameFields(f), ZERO) == Some(Canonical(f))
  {
    var scalars, hs, kind := ScalarFields(f), HeadersFields(f.headers), KindFields(f);
    var last := [BytesField(8, f.payload)];
    assert FrameFields(f) == scalars + hs + kind + last;
    var g := ZERO.(seqId := f.seqId, logId := f.logId, service := f.service, method_ := f.method_);
    var g2 := g.(headers := [] + CanonicalHeaders(f.headers));
    var g3 := g2.(payloadType := Canonical(f).payloadType);
    CanonicalIs(f);
    hide Apply, ApplyAll, ScalarFields, HeadersFields, KindFields, FrameFields, Canonical, CanonicalHeaders, AllWellFormed, StorableHeader;
    ScalarsRoundTrip(f, ZERO);
    HeadersRoundTrip(f.headers, g);
    KindRoundTrip(f, g2);
    LastRoundTrip(f, g3);
    ApplyAllAppend(scalars, hs, ZERO);
    ApplyAllAppend(scalars + hs, kind, ZERO);
    ApplyAllAppend(scalars + hs + kind, last, ZERO);
    WellFormedAppend(scalars, hs);
    WellFormedAppend(scalars + hs, kind);
    WellFormedAppend(scalars + hs + kind, last);
  }

  /** Parsing undoes encoding, up to what the encoder drops by design. */
  lemma FrameRoundTrip(f: Frame)
    requires Storable(f)
    ensures ParseFields(RenderAll(FrameFields(f)), ZERO) == Some(Canonical(f))
  {
    FrameFieldsRoundTrip(f);
    ParseIsCompositional(FrameFields(f), [], ZERO);
    assert RenderAll(FrameFields(f)) + [] == RenderAll(FrameFields(f));
  }

  lemma {:induction false} CanonicalHeadersIdentity(hs: seq<Header>)
    ensures CanonicalHeaders(hs) == hs <==>
            forall i | 0 <= i < |hs| ::
              Complete(hs[i]) && NulFree(hs[i].key.value) && NulFree(hs[i].value.value)
  {
    if hs != [] {
      var h := hs[0];
      CanonicalHeadersIdentity(hs[1..]);
      assert hs == [h] + hs[1..];
      if Complete(h) {
        CStringIdentity(h.key.value);
        CStringIdentity(h.value.value);
        if CanonicalHeaders(hs) == hs {
          assert CanonicalHeaders(hs)[1..] == hs[1..];
          assert CanonicalHeaders(hs)[0] == h;
        }
      } else {
        assert CanonicalHeaders(hs) == CanonicalHeaders(hs[1..]);
      }
    }
  }

  /** Exactly the encodable frames come back unchanged. */
  lemma FrameRoundTripExact(f: Frame)
    requires Storable(f)
    ensures ParseFields(RenderAll(FrameFields(f)), ZERO) == Some(f) <==> Encodable(f)
  {
    FrameRoundTrip(f);
    CanonicalHeadersIdentity(f.headers);
    if f.payloadType.Some? {
      CStringIdentity(f.payloadType.value);
    }
  }
}
