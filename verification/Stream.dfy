/** The streaming reply parser: reads arrive in arbitrary pieces, complete lines are taken out of
    the receive buffer in place, and each `data: ` line adds to the reply being put together. The
    JSON text of a line is a parameter of the model. */
module Streaming {
  import opened Sequences
  import opened Wrappers

  const NUL := '\0'
  const PREFIX := "data: "
  const FINISHED := "[DONE]"

  datatype CallDelta = CallDelta(index: Option<nat>, id: Option<string>, name: Option<string>, args: Option<string>)

  datatype Payload = Payload(content: Option<string>, calls: seq<CallDelta>, finish: Option<string>, usage: Option<int>)

  type Decoder = string -> Option<Payload>

  datatype Call = Call(id: string, name: string, args: string)

  const NO_CALL := Call("", "", "")

  /** What the caller's chunk callback is given. */
  datatype Chunk = Chunk(text: string, last: bool)

  datatype Reply = Reply(content: string, calls: seq<Call>, finish: Option<string>, usage: int,
                         done: bool, emitted: seq<Chunk>)

  datatype State = State(buf: string, reply: Reply)

  const START := State([], Reply("", [], None, 0, false, []))

  // ----- one line

  function Or<T>(o: Option<T>, otherwise: T): T {
    match o case Some(v) => v case None => otherwise
  }

  /** The calls of a reply, long enough to hold an index. */
  function Padded(calls: seq<Call>, index: nat): (r: seq<Call>)
    ensures |r| > index && |r| >= |calls| && r[..|calls|] == calls
    ensures forall k | |calls| <= k < |r| :: r[k] == NO_CALL
  {
    if index < |calls| then calls else calls + seq(index + 1 - |calls|, i => NO_CALL)
  }

  /** A piece of one call: id and name replace, arguments are appended. */
  function Merged(call: Call, d: CallDelta): Call {
    Call(Or(d.id, call.id), Or(d.name, call.name), call.args + Or(d.args, ""))
  }

  function AddDelta(calls: seq<Call>, d: CallDelta): seq<Call> {
    var index := Or(d.index, |calls|);
    var padded := Padded(calls, index);
    padded[index := Merged(padded[index], d)]
  }

  function AddDeltas(calls: seq<Call>, ds: seq<CallDelta>): seq<Call>
    decreases |ds|
  {
    if ds == [] then calls else AddDeltas(AddDelta(calls, ds[0]), ds[1..])
  }

  function AddPayload(r: Reply, p: Payload): Reply {
    Reply(r.content + Or(p.content, ""), AddDeltas(r.calls, p.calls),
          if p.finish.Some? then p.finish else r.finish, Or(p.usage, r.usage), r.done,
          r.emitted + if p.content.Some? then [Chunk(p.content.value, false)] else [])
  }

  /** What follows the prefix, without a carriage return at its end. */
  function Data(line: string): string
    requires PREFIX <= line
  {
    var data := line[|PREFIX|..];
    if data != [] && data[|data| - 1] == '\r' then data[..|data| - 1] else data
  }

  predicate IsFinish(line: string) {
    PREFIX <= line && Data(line) == FINISHED
  }

  function AddLine(decode: Decoder, r: Reply, line: string): Reply {
    if PREFIX <= line then
      match decode(Data(line))
      case Some(p) => AddPayload(r, p)
      case None => r
    else r
  }

  function Finished(r: Reply): Reply {
    r.(done := true, emitted := r.emitted + [Chunk("", true)])
  }

  // ----- the receive buffer

  /** Where the first line ends, if a line feed comes before any NUL. */
  function LineEnd(s: string): (n: Option<nat>)
    ensures match n
            case Some(k) => k < |s| && s[k] == '\n' && forall i | 0 <= i < k :: s[i] != '\n' && s[i] != NUL
            case None => forall k | 0 <= k < |s| && s[k] == '\n' :: exists i :: 0 <= i < k && s[i] == NUL
  {
    if s == [] || s[0] == NUL then None
    else if s[0] == '\n' then Some(0)
    else match LineEnd(s[1..])
      case Some(k) => Some(k + 1)
      case None =>
        assert forall k | 0 < k < |s| && s[k] == '\n' :: s[1..][k - 1] == '\n';
        None
  }

  /** The finishing line stays in the buffer with its line end overwritten by NULs. */
  function Blocked(buf: string, end: nat): string
    requires 0 < end < |buf|
  {
    if buf[end - 1] == '\r' then buf[end := NUL][end - 1 := NUL] else buf[end := NUL]
  }

  /** One complete line taken off the front; a finishing one stays. */
  function TakenOne(decode: Decoder, s: State): State
    requires LineEnd(s.buf).Some?
  {
    var end := LineEnd(s.buf).value;
    if IsFinish(s.buf[..end]) then State(Blocked(s.buf, end), Finished(s.reply))
    else State(s.buf[end + 1..], AddLine(decode, s.reply, s.buf[..end]))
  }

  /** Takes complete lines off the front of the buffer, up to and including a finishing line. */
  function Drain(decode: Decoder, s: State): (r: State)
    decreases |s.buf|
  {
    match LineEnd(s.buf)
    case None => s
    case Some(end) =>
      if IsFinish(s.buf[..end]) then TakenOne(decode, s) else Drain(decode, TakenOne(decode, s))
  }

  function Feed(decode: Decoder, s: State, chunk: string): State {
    Drain(decode, State(s.buf + chunk, s.reply))
  }

  function FeedAll(decode: Decoder, s: State, chunks: seq<string>): State
    decreases |chunks|
  {
    if chunks == [] then s else FeedAll(decode, Feed(decode, s, chunks[0]), chunks[1..])
  }

  function Concat(chunks: seq<string>): string {
    if chunks == [] then [] else chunks[0] + Concat(chunks[1..])
  }

  predicate Settled(s: State) {
    LineEnd(s.buf).None?
  }

  lemma {:induction false} LineEndIs(s: string, k: nat)
    requires k < |s| && forall i | 0 <= i < k :: s[i] != '\n' && s[i] != NUL
    ensures s[k] == '\n' ==> LineEnd(s) == Some(k)
    ensures s[k] == NUL ==> LineEnd(s) == None
  {
    if k > 0 {
      LineEndIs(s[1..], k - 1);
    }
  }

  lemma BlockedBlocks(buf: string, end: nat, more: string)
    requires LineEnd(buf) == Some(end) && IsFinish(buf[..end])
    ensures end > 0 && LineEnd(Blocked(buf, end) + more) == None
    ensures LineEnd(Blocked(buf, end)) == None
    ensures Blocked(buf, end) + more == Blocked(buf + more, end)
  {
    var b := Blocked(buf, end);
    var k := if buf[end - 1] == '\r' then end - 1 else end;
    LineEndIs(b, k);
    LineEndIs(b + more, k);
  }

  lemma LineEndWithMore(buf: string, more: string)
    ensures LineEnd(buf).Some? ==> LineEnd(buf + more) == LineEnd(buf)
  {
    if LineEnd(buf).Some? {
      LineEndIs(buf + more, LineEnd(buf).value);
    }
  }

  /** Draining early and then appending is draining what was appended to. */
  lemma {:induction false} DrainThenMore(decode: Decoder, s: State, more: string)
    ensures Settled(Drain(decode, s))
    ensures Feed(decode, Drain(decode, s), more) == Feed(decode, s, more)
    decreases |s.buf|
  {
    DrainOne(decode, s);
    DrainOne(decode, State(s.buf + more, s.reply));
    hide IsFinish, AddLine, LineEnd, Blocked, Drain;
    match LineEnd(s.buf) {
      case None =>
      case Some(end) =>
        var line := s.buf[..end];
        LineEndWithMore(s.buf, more);
        SplitLater(s.buf, end, more);
        if IsFinish(line) {
          BlockedBlocks(s.buf, end, more);
          var rest := State(Blocked(s.buf, end), Finished(s.reply));
          DrainOne(decode, State(rest.buf + more, rest.reply));
        } else {
          DrainThenMore(decode, State(s.buf[end + 1..], AddLine(decode, s.reply, line)), more);
        }
    }
  }

  lemma DrainOne(decode: Decoder, s: State)
    ensures Drain(decode, s) ==
            match LineEnd(s.buf)
            case None => s
            case Some(end) =>
              if IsFinish(s.buf[..end]) then State(Blocked(s.buf, end), Finished(s.reply))
              else Drain(decode, State(s.buf[end + 1..], AddLine(decode, s.reply, s.buf[..end])))
  {
    hide IsFinish, AddLine, LineEnd, Blocked;
  }

  lemma TakenOneDrains(decode: Decoder, s: State)
    requires LineEnd(s.buf).Some?
    ensures Drain(decode, TakenOne(decode, s)) == Drain(decode, s)
    ensures IsFinish(s.buf[..LineEnd(s.buf).value]) ==> LineEnd(TakenOne(decode, s).buf) == None
  {
    var end := LineEnd(s.buf).value;
    if IsFinish(s.buf[..end]) {
      BlockedBlocks(s.buf, end, []);
    }
    hide LineEnd, IsFinish, Blocked, AddLine, Finished;
  }

  lemma SplitLater(s: string, end: nat, more: string)
    requires end < |s|
    ensures (s + more)[..end] == s[..end] && (s + more)[end + 1..] == s[end + 1..] + more
  {
  }

  lemma FeedTwice(decode: Decoder, s: State, a: string, b: string)
    ensures Feed(decode, Feed(decode, s, a), b) == Feed(decode, s, a + b)
  {
    hide Drain;
    DrainThenMore(decode, State(s.buf + a, s.reply), b);
    Reassociate(s.buf, a, b);
  }

  /** However the stream is cut into reads, the state is that of one read of the whole. */
  lemma {:induction false} ChunkInvariant(decode: Decoder, s: State, chunks: seq<string>)
    requires Settled(s)
    ensures FeedAll(decode, s, chunks) == Feed(decode, s, Concat(chunks))
    decreases |chunks|
  {
    if chunks == [] {
      assert s.buf + [] == s.buf;
    } else {
      hide Feed, Drain;
      FeedSettles(decode, s, chunks[0]);
      ChunkInvariant(decode, Feed(decode, s, chunks[0]), chunks[1..]);
      FeedTwice(decode, s, chunks[0], Concat(chunks[1..]));
    }
  }

  lemma FeedSettles(decode: Decoder, s: State, chunk: string)
    ensures Settled(Feed(decode, s, chunk))
  {
    hide Drain;
    DrainThenMore(decode, State(s.buf + chunk, s.reply), []);
  }

  // ----- the reply as the stream's lines define it

  /** The complete lines of a text. */
  function Lines(s: string): seq<string> {
    var end := IndexOfFeed(s);
    if end == |s| then [] else [s[..end]] + Lines(s[end + 1..])
  }

  function IndexOfFeed(s: string): (n: nat)
    ensures n <= |s| && (n < |s| ==> s[n] == '\n')
    ensures forall i | 0 <= i < n :: s[i] != '\n'
  {
    if s == [] || s[0] == '\n' then 0 else 1 + IndexOfFeed(s[1..])
  }

  /** The text before the first NUL. */
  function UpToNul(s: string): (r: string)
    ensures r <= s && NUL !in r && (r != s ==> s[|r|] == NUL)
  {
    if s == [] || s[0] == NUL then [] else [s[0]] + UpToNul(s[1..])
  }

  /** The lines before the first finishing one. */
  function BeforeFinish(lines: seq<string>): (r: seq<string>)
    ensures r <= lines && (forall l | l in r :: !IsFinish(l)) && (r != lines ==> IsFinish(lines[|r|]))
  {
    if lines == [] || IsFinish(lines[0]) then [] else [lines[0]] + BeforeFinish(lines[1..])
  }

  function AddLines(decode: Decoder, r: Reply, lines: seq<string>): Reply
    decreases |lines|
  {
    if lines == [] then r else AddLines(decode, AddLine(decode, r, lines[0]), lines[1..])
  }

  /** The reply of a whole stream: its lines before the finishing one, in order. */
  function ReplyOf(decode: Decoder, r: Reply, stream: string): Reply {
    var lines := Lines(UpToNul(stream));
    var before := BeforeFinish(lines);
    var reply := AddLines(decode, r, before);
    if before == lines then reply else Finished(reply)
  }

  lemma {:induction false} UpToNulSplits(s: string, n: nat)
    requires n <= |s| && forall i | 0 <= i < n :: s[i] != NUL
    ensures UpToNul(s) == s[..n] + UpToNul(s[n..])
  {
    if n == 0 {
      assert s[0..] == s;
    } else {
      var rest := s[1..];
      UpToNulSplits(rest, n - 1);
      assert UpToNul(s) == [s[0]] + UpToNul(rest);
      hide UpToNul;
      assert rest[n - 1..] == s[n..];
      assert [s[0]] + rest[..n - 1] == s[..n];
      Reassociate([s[0]], rest[..n - 1], UpToNul(s[n..]));
    }
  }

  lemma {:induction false} IndexOfFeedIs(s: string, k: nat)
    requires k <= |s| && (k < |s| ==> s[k] == '\n') && forall i | 0 <= i < k :: s[i] != '\n'
    ensures IndexOfFeed(s) == k
  {
    if k > 0 {
      IndexOfFeedIs(s[1..], k - 1);
    }
  }

  lemma LinesTakeOne(s: string)
    ensures match LineEnd(s)
            case Some(end) => Lines(UpToNul(s)) == [s[..end]] + Lines(UpToNul(s[end + 1..]))
            case None => Lines(UpToNul(s)) == []
  {
    var t := UpToNul(s);
    match LineEnd(s) {
      case Some(end) =>
        UpToNulSplits(s, end + 1);
        IndexOfFeedIs(t, end);
        assert t[..end] == s[..end] && t[end + 1..] == UpToNul(s[end + 1..]);
      case None =>
        assert '\n' !in t;
        IndexOfFeedIs(t, |t|);
    }
  }

  lemma {:induction false} DrainIsReplyOf(decode: Decoder, s: State)
    ensures Drain(decode, s).reply == ReplyOf(decode, s.reply, s.buf)
    decreases |s.buf|
  {
    hide IsFinish, AddLine, LineEnd, Blocked, Lines, UpToNul;
    LinesTakeOne(s.buf);
    match LineEnd(s.buf) {
      case None =>
      case Some(end) =>
        var line, rest := s.buf[..end], s.buf[end + 1..];
        var lines := Lines(UpToNul(rest));
        assert ([line] + lines)[1..] == lines;
        if !IsFinish(line) {
          DrainIsReplyOf(decode, State(rest, AddLine(decode, s.reply, line)));
          assert ([line] + BeforeFinish(lines))[1..] == BeforeFinish(lines);
        }
    }
  }

  /** Whatever the reads, the reply is the one the stream's lines define. */
  lemma StreamMeansLines(decode: Decoder, chunks: seq<string>)
    ensures FeedAll(decode, START, chunks).reply == ReplyOf(decode, START.reply, Concat(chunks))
  {
    hide Drain, ReplyOf;
    ChunkInvariant(decode, START, chunks);
    DrainIsReplyOf(decode, State([] + Concat(chunks), START.reply));
    assert [] + Concat(chunks) == Concat(chunks);
  }

  // ----- what the reply holds

  /** The call a delta belongs to: its index, or a new one behind the calls so far. */
  function IndexOf(before: seq<CallDelta>, d: CallDelta): nat
    decreases |before|, 1
  {
    Or(d.index, CallCount(before))
  }

  function CallCount(ds: seq<CallDelta>): nat
    decreases |ds|, 0
  {
    if ds == [] then 0
    else
      var before, last := ds[..|ds| - 1], ds[|ds| - 1];
      if IndexOf(before, last) < CallCount(before) then CallCount(before) else IndexOf(before, last) + 1
  }

  /** The arguments of one call: the pieces that belong to it, in order of arrival. */
  function ArgsOf(ds: seq<CallDelta>, k: nat): string {
    if ds == [] then ""
    else
      var before, last := ds[..|ds| - 1], ds[|ds| - 1];
      ArgsOf(before, k) + if IndexOf(before, last) == k then Or(last.args, "") else ""
  }

  /** The last id given for one call. */
  function IdOf(ds: seq<CallDelta>, k: nat): string {
    if ds == [] then ""
    else
      var before, last := ds[..|ds| - 1], ds[|ds| - 1];
      if IndexOf(before, last) == k && last.id.Some? then last.id.value else IdOf(before, k)
  }

  function NameOf(ds: seq<CallDelta>, k: nat): string {
    if ds == [] then ""
    else
      var before, last := ds[..|ds| - 1], ds[|ds| - 1];
      if IndexOf(before, last) == k && last.name.Some? then last.name.value else NameOf(before, k)
  }

  lemma {:induction false} AddDeltasConcat(calls: seq<Call>, a: seq<CallDelta>, b: seq<CallDelta>)
    ensures AddDeltas(calls, a + b) == AddDeltas(AddDeltas(calls, a), b)
    decreases |a|
  {
    hide AddDelta;
    if a == [] {
      assert a + b == b;
    } else {
      AddDeltasConcat(AddDelta(calls, a[0]), a[1..], b);
      assert (a + b)[1..] == a[1..] + b;
    }
  }

  /** Nothing belongs to a call past the last one. */
  lemma {:induction false} NothingPast(ds: seq<CallDelta>, k: nat)
    requires k >= CallCount(ds)
    ensures ArgsOf(ds, k) == IdOf(ds, k) == NameOf(ds, k) == ""
  {
    if ds != [] {
      NothingPast(ds[..|ds| - 1], k);
    }
  }

  /** Each call of the reply is put together from exactly the pieces that belong to it. */
  lemma {:induction false} CallsExact(ds: seq<CallDelta>)
    ensures var calls := AddDeltas([], ds);
            && |calls| == CallCount(ds)
            && forall k | 0 <= k < |calls| :: calls[k] == Call(IdOf(ds, k), NameOf(ds, k), ArgsOf(ds, k))
  {
    if ds != [] {
      var before, last := ds[..|ds| - 1], ds[|ds| - 1];
      CallsExact(before);
      AddDeltasConcat([], before, [last]);
      assert before + [last] == ds;
      var was, calls := AddDeltas([], before), AddDeltas([], ds);
      LastDelta(was, last);
      hide AddDeltas, AddDelta, CallCount, IdOf, NameOf, ArgsOf;
      assert calls == AddDelta(was, last);
      forall k | 0 <= k < |calls| ensures calls[k] == Call(IdOf(ds, k), NameOf(ds, k), ArgsOf(ds, k)) {
        CallAfter(ds, was, k);
      }
      CountAfter(ds, was);
    } else {
    }
  }

  lemma LastDelta(was: seq<Call>, last: CallDelta)
    ensures AddDeltas(was, [last]) == AddDelta(was, last)
  {
    assert [last][1..] == [];
  }

  lemma CountAfter(ds: seq<CallDelta>, was: seq<Call>)
    requires ds != [] && |was| == CallCount(ds[..|ds| - 1])
    ensures |AddDelta(was, ds[|ds| - 1])| == CallCount(ds)
  {
  }

  lemma CallAfter(ds: seq<CallDelta>, was: seq<Call>, k: nat)
    requires ds != [] && |was| == CallCount(ds[..|ds| - 1])
    requires k < |AddDelta(was, ds[|ds| - 1])|
    requires forall i | 0 <= i < |was| ::
               was[i] == Call(IdOf(ds[..|ds| - 1], i), NameOf(ds[..|ds| - 1], i), ArgsOf(ds[..|ds| - 1], i))
    ensures AddDelta(was, ds[|ds| - 1])[k] == Call(IdOf(ds, k), NameOf(ds, k), ArgsOf(ds, k))
  {
    if k >= |was| {
      NothingPast(ds[..|ds| - 1], k);
    }
  }

  function Texts(emitted: seq<Chunk>): string {
    if emitted == [] then "" else emitted[0].text + Texts(emitted[1..])
  }

  lemma {:induction false} TextsConcat(a: seq<Chunk>, b: seq<Chunk>)
    ensures Texts(a + b) == Texts(a) + Texts(b)
  {
    if a == [] {
      assert a + b == b;
    } else {
      TextsConcat(a[1..], b);
      assert (a + b)[1..] == a[1..] + b;
      assert Texts(a + b) == a[0].text + Texts(a[1..] + b);
      hide Texts;
      Reassociate(a[0].text, Texts(a[1..]), Texts(b));
    }
  }

  /** The chunks handed to the caller spell the content, and the last one is marked exactly when
      the finishing line came. */
  predicate Faithful(r: Reply) {
    && Texts(r.emitted) == r.content
    && (forall i | 0 <= i < |r.emitted| :: r.emitted[i].last <==> r.done && i == |r.emitted| - 1)
    && (r.done ==> r.emitted != [])
  }

  lemma LineKeepsFaithful(decode: Decoder, r: Reply, line: string)
    requires Faithful(r) && !r.done
    ensures Faithful(AddLine(decode, r, line)) && !AddLine(decode, r, line).done
    ensures Faithful(Finished(r))
  {
    var more := AddLine(decode, r, line).emitted[|r.emitted|..];
    TextsConcat(r.emitted, more);
    assert r.emitted + more == AddLine(decode, r, line).emitted;
    TextsConcat(r.emitted, [Chunk("", true)]);
    assert Texts(more) == if more == [] then "" else more[0].text;
    assert Texts([Chunk("", true)]) == "";
  }

  lemma {:induction false} DrainKeepsFaithful(decode: Decoder, s: State)
    requires Faithful(s.reply) && (s.reply.done ==> Settled(s))
    ensures Faithful(Drain(decode, s).reply)
    decreases |s.buf|
  {
    hide Faithful, AddLine, Finished, IsFinish;
    match LineEnd(s.buf) {
      case None =>
      case Some(end) =>
        var line := s.buf[..end];
        LineKeepsFaithful(decode, s.reply, line);
        if !IsFinish(line) {
          DrainKeepsFaithful(decode, State(s.buf[end + 1..], AddLine(decode, s.reply, line)));
        }
    }
  }

  /** After the finishing line, nothing that arrives changes the reply. */
  lemma {:induction false} FinishIsFinal(decode: Decoder, s: State, more: string)
    requires !s.reply.done && Drain(decode, s).reply.done
    ensures Feed(decode, Drain(decode, s), more).reply == Drain(decode, s).reply
    decreases |s.buf|
  {
    hide LineEnd, Blocked, Data, AddPayload;
    match LineEnd(s.buf) {
      case None =>
      case Some(end) =>
        var line := s.buf[..end];
        if IsFinish(line) {
          BlockedBlocks(s.buf, end, more);
        } else {
          LineKeepsOpen(decode, s.reply, line);
          FinishIsFinal(decode, State(s.buf[end + 1..], AddLine(decode, s.reply, line)), more);
        }
    }
  }

  lemma LineKeepsOpen(decode: Decoder, r: Reply, line: string)
    ensures AddLine(decode, r, line).done == r.done
  {
  }

  lemma StreamIsFaithful(decode: Decoder, chunks: seq<string>)
    ensures Faithful(FeedAll(decode, START, chunks).reply)
  {
    assert Faithful(START.reply);
    hide Drain, Faithful;
    ChunkInvariant(decode, START, chunks);
    DrainKeepsFaithful(decode, State([] + Concat(chunks), START.reply));
  }

  function LineDeltas(decode: Decoder, line: string): seq<CallDelta> {
    if PREFIX <= line then match decode(Data(line)) case Some(p) => p.calls case None => [] else []
  }

  function LineContent(decode: Decoder, line: string): string {
    if PREFIX <= line then match decode(Data(line)) case Some(p) => Or(p.content, "") case None => "" else ""
  }

  /** All the call pieces of some lines, in order. */
  function DeltasOf(decode: Decoder, lines: seq<string>): seq<CallDelta>
    decreases |lines|
  {
    if lines == [] then [] else LineDeltas(decode, lines[0]) + DeltasOf(decode, lines[1..])
  }

  /** All the content of some lines, in order. */
  function ContentOf(decode: Decoder, lines: seq<string>): string
    decreases |lines|
  {
    if lines == [] then "" else LineContent(decode, lines[0]) + ContentOf(decode, lines[1..])
  }

  lemma LineExact(decode: Decoder, r: Reply, line: string)
    ensures AddLine(decode, r, line).calls == AddDeltas(r.calls, LineDeltas(decode, line))
    ensures AddLine(decode, r, line).content == r.content + LineContent(decode, line)
  {
    hide Data, AddDelta;
    assert r.content + "" == r.content;
  }

  lemma LinesUnfold(decode: Decoder, r: Reply, lines: seq<string>)
    requires lines != []
    ensures AddLines(decode, r, lines) == AddLines(decode, AddLine(decode, r, lines[0]), lines[1..])
    ensures DeltasOf(decode, lines) == LineDeltas(decode, lines[0]) + DeltasOf(decode, lines[1..])
    ensures ContentOf(decode, lines) == LineContent(decode, lines[0]) + ContentOf(decode, lines[1..])
  {
    hide AddLine, LineDeltas, LineContent;
  }

  lemma {:induction false} LinesExact(decode: Decoder, r: Reply, lines: seq<string>)
    ensures AddLines(decode, r, lines).calls == AddDeltas(r.calls, DeltasOf(decode, lines))
    ensures AddLines(decode, r, lines).content == r.content + ContentOf(decode, lines)
    decreases |lines|
  {
    if lines == [] {
      assert r.content + "" == r.content;
    } else {
      var line, rest := lines[0], lines[1..];
      LinesUnfold(decode, r, lines);
      hide *;
      LineExact(decode, r, line);
      LinesExact(decode, AddLine(decode, r, line), rest);
      AddDeltasConcat(r.calls, LineDeltas(decode, line), DeltasOf(decode, rest));
      Reassociate(r.content, LineContent(decode, line), ContentOf(decode, rest));
    }
  }

  /** The whole of a streamed reply, from the lines of the stream alone: content and arguments
      are the pieces in order, id and name the last given, and the rest of the stream after the
      finishing line counts for nothing. */
  lemma StreamExact(decode: Decoder, chunks: seq<string>)
    ensures var lines := Lines(UpToNul(Concat(chunks)));
            var before := BeforeFinish(lines);
            var reply, ds := FeedAll(decode, START, chunks).reply, DeltasOf(decode, before);
            && reply.content == ContentOf(decode, before)
            && (reply.done <==> exists l :: l in lines && IsFinish(l))
            && |reply.calls| == CallCount(ds)
            && forall k | 0 <= k < |reply.calls| :: reply.calls[k] == Call(IdOf(ds, k), NameOf(ds, k), ArgsOf(ds, k))
  {
    var lines := Lines(UpToNul(Concat(chunks)));
    var before := BeforeFinish(lines);
    StreamMeansLines(decode, chunks);
    LinesExact(decode, START.reply, before);
    LinesKeepOpen(decode, START.reply, before);
    CallsExact(DeltasOf(decode, before));
    hide AddLines, AddDeltas, CallCount, IdOf, NameOf, ArgsOf, ContentOf, DeltasOf, IsFinish, Lines, UpToNul, Concat, FeedAll;
    assert "" + ContentOf(decode, before) == ContentOf(decode, before);
  }

  lemma {:induction false} LinesKeepOpen(decode: Decoder, r: Reply, lines: seq<string>)
    ensures AddLines(decode, r, lines).done == r.done
    decreases |lines|
  {
    if lines != [] {
      LineKeepsOpen(decode, r, lines[0]);
      LinesKeepOpen(decode, AddLine(decode, r, lines[0]), lines[1..]);
    }
  }

  function Shifted(o: Option<nat>, from: nat): Option<nat> {
    match o case Some(n) => Some(from + n) case None => None
  }

  // ----- the handler

  class StreamContext {
    const decode: Decoder
    var data: array<char>      // the receive buffer and a NUL behind it
    var len: nat
    var content: string
    var accum: array<Call>     // the calls so far, and empty ones up to the capacity
    var count: nat
    var finish: Option<string>
    var usage: int
    var done: bool
    var emitted: seq<Chunk>

    ghost predicate Valid()
      reads this, data, accum
    {
      && len < data.Length && data[len] == NUL
      && count <= accum.Length && forall k | count <= k < accum.Length :: accum[k] == NO_CALL
    }

    ghost function TheReply(): Reply
      requires Valid()
      reads this, data, accum
    {
      Reply(content, accum[..count], finish, usage, done, emitted)
    }

    ghost function View(): State
      requires Valid()
      reads this, data, accum
    {
      State(data[..len], TheReply())
    }

    constructor (decode: Decoder)
      ensures Valid() && View() == START && this.decode == decode && fresh(data) && fresh(accum)
    {
      this.decode := decode;
      data, len := new char[1](i => NUL), 0;
      content, finish, usage, done, emitted := "", None, 0, false, [];
      accum, count := new Call[0], 0;
    }

    method TakeDelta(d: CallDelta)
      requires Valid()
      modifies this`accum, this`count, accum
      ensures Valid() && accum[..count] == AddDelta(old(accum[..count]), d)
      ensures accum == old(accum) || fresh(accum)
    {
      ghost var calls := accum[..count];
      var index := Or(d.index, count);
      if index >= accum.Length {
        Grow(index + 4);
      }
      assert forall k | 0 <= k < |calls| :: accum[k] == calls[k];
      if index >= count {
        count := index + 1;
      }
      assert accum[..count] == Padded(calls, index);
      accum[index] := Merged(accum[index], d);
    }

    method Grow(capacity: nat)
      requires Valid() && capacity > accum.Length
      modifies this`accum
      ensures Valid() && fresh(accum) && accum.Length == capacity
      ensures accum[..count] == old(accum[..count])
    {
      var old' := accum;
      var larger := new Call[capacity];
      var k := 0;
      while k < old'.Length
        invariant k <= old'.Length && larger[..k] == old'[..k]
      {
        larger[k] := old'[k];
        k := k + 1;
      }
      while k < capacity
        invariant old'.Length <= k <= capacity
        invariant larger[..old'.Length] == old'[..]
        invariant forall i | old'.Length <= i < k :: larger[i] == NO_CALL
      {
        larger[k] := NO_CALL;
        k := k + 1;
      }
      assert forall i | 0 <= i < old'.Length :: larger[i] == larger[..old'.Length][i] == old'[i];
      accum := larger;
    }

    method TakePayload(p: Payload)
      requires Valid()
      modifies this`content, this`emitted, this`accum, this`count, this`finish, this`usage, accum
      ensures Valid() && TheReply() == AddPayload(old(TheReply()), p)
      ensures accum == old(accum) || fresh(accum)
    {
      hide AddDelta;
      if p.content.Some? {
        content := content + p.content.value;
        emitted := emitted + [Chunk(p.content.value, false)];
      }
      var i := 0;
      while i < |p.calls|
        invariant i <= |p.calls| && Valid() && (accum == old(accum) || fresh(accum))
        invariant AddDeltas(accum[..count], p.calls[i..]) == AddDeltas(old(accum[..count]), p.calls)
        modifies this`accum, this`count, accum
      {
        TakeDelta(p.calls[i]);
        i := i + 1;
      }
      if p.finish.Some? {
        finish := p.finish;
      }
      usage := Or(p.usage, usage);
      assert p.calls[|p.calls|..] == [];
      assert old(content) + "" == old(content) && old(emitted) + [] == old(emitted);
    }

    /** `strchr`: stops at the NUL behind the buffer or at one inside it. */
    method FindLineFeed(from: nat) returns (at: Option<nat>)
      requires Valid() && from <= len
      ensures at == Shifted(LineEnd(data[from..len]), from)
      ensures at.Some? ==> from <= at.value < len
    {
      var k := from;
      while data[k] != '\n' && data[k] != NUL
        invariant from <= k <= len
        invariant forall i | from <= i < k :: data[i] != '\n' && data[i] != NUL
        decreases len - k
      {
        k := k + 1;
      }
      if k < len {
        LineEndIs(data[from..len], k - from);
      }
      return if data[k] == '\n' then Some(k) else None;
    }

    /** Overwrites the line end, and a carriage return before it, by NULs. */
    method EndLine(start: nat, newline: nat) returns (line: string)
      requires Valid() && start <= newline < len
      modifies data
      ensures Valid() && TheReply() == old(TheReply())
      ensures var buf, end := old(data[start..len]), newline - start;
              && line == buf[..end] && data[newline + 1..len] == buf[end + 1..]
              && (PREFIX <= line && |line| > |PREFIX| ==> data[start..len] == Blocked(buf, end))
    {
      line := data[start..newline];
      data[newline] := NUL;
      if PREFIX <= line && |line| > |PREFIX| && data[newline - 1] == '\r' {
        data[newline - 1] := NUL;
      }
    }

    /** One line; `next` is where the rest starts. */
    method TakeLine(start: nat, newline: nat) returns (next: nat, finished: bool)
      requires Valid() && start <= newline < len && LineEnd(data[start..len]) == Some(newline - start)
      modifies this`content, this`emitted, this`accum, this`count, this`finish, this`usage, this`done, accum, data
      ensures Valid() && (accum == old(accum) || fresh(accum)) && next == if finished then start else newline + 1
      ensures State(data[next..len], TheReply()) == TakenOne(decode, old(State(data[start..len], TheReply())))
      ensures finished == IsFinish(old(data[start..len])[..newline - start])
    {
      hide AddPayload, Blocked, LineEnd;
      var line := EndLine(start, newline);
      if PREFIX <= line {
        if Data(line) == FINISHED {
          done := true;
          emitted := emitted + [Chunk("", true)];
          return start, true;
        }
        var payload := decode(Data(line));
        if payload.Some? {
          TakePayload(payload.value);
        }
      }
      return newline + 1, false;
    }

    method Append(chunk: string)
      requires Valid()
      modifies this`data, this`len
      ensures Valid() && fresh(data) && data[..len] == old(data[..len]) + chunk
      ensures TheReply() == old(TheReply())
    {
      var larger := new char[len + |chunk| + 1](i => NUL);
      ghost var all := data[..len] + chunk;
      var k: nat := 0;
      while k < len
        invariant k <= len
        invariant forall i | 0 <= i < k :: larger[i] == data[i]
        modifies larger
      {
        larger[k] := data[k];
        k := k + 1;
      }
      assert forall i | 0 <= i < len :: larger[i] == all[i];
      var i: nat := 0;
      while i < |chunk|
        invariant i <= |chunk|
        invariant forall j | 0 <= j < len + i :: larger[j] == all[j]
        modifies larger
      {
        larger[len + i] := chunk[i];
        i := i + 1;
      }
      larger[len + |chunk|] := NUL;
      assert larger[..len + |chunk|] == all;
      data, len := larger, len + |chunk|;
    }

    /** `memmove` of what is left to the front. */
    method Compact(start: nat)
      requires Valid() && start <= len
      modifies this`len, data
      ensures Valid() && data[..len] == old(data[start..len])
      ensures TheReply() == old(TheReply())
    {
      ghost var was := data[..];
      var remaining := len - start;
      var k := 0;
      while k < remaining
        invariant k <= remaining && data.Length == |was|
        invariant forall i | 0 <= i < k :: data[i] == was[start + i]
        invariant forall i | k <= i < |was| :: data[i] == was[i]
      {
        data[k] := data[start + k];
        k := k + 1;
      }
      len := remaining;
      data[len] := NUL;
    }

    /** What holds each time round the loop over lines. */
    ghost predicate Draining(start: nat, newline: Option<nat>, goal: State)
      reads this, data, accum
    {
      && Valid() && start <= len && Drain(decode, State(data[start..len], TheReply())) == goal
      && newline == Shifted(LineEnd(data[start..len]), start)
    }

    method NextLine(start: nat, newline: nat, ghost goal: State) returns (start': nat, newline': Option<nat>)
      requires Draining(start, Some(newline), goal)
      modifies this`content, this`emitted, this`accum, this`count, this`finish, this`usage, this`done, accum, data
      ensures Draining(start', newline', goal) && start <= start' && (newline'.Some? ==> start < start')
      ensures accum == old(accum) || fresh(accum)
    {
      ghost var s := State(data[start..len], TheReply());
      TakenOneDrains(decode, s);
      hide IsFinish, LineEnd, TakenOne, Drain;
      var finished;
      start', finished := TakeLine(start, newline);
      if finished {
        newline' := None;
      } else {
        newline' := FindLineFeed(start');
      }
    }

    /** A read event. */
    method Read(chunk: string)
      requires Valid() && Settled(View())
      modifies this, data, accum
      ensures Valid() && View() == Feed(decode, old(View()), chunk)
      ensures Settled(View())
    {
      FeedSettles(decode, View(), chunk);
      if chunk == [] {
        assert data[..len] + chunk == data[..len];
        return;
      }
      ghost var goal := Feed(decode, View(), chunk);
      Append(chunk);
      assert data[0..len] == data[..len];
      hide AddLine, IsFinish, LineEnd, Drain;
      var start: nat := 0;
      var newline := FindLineFeed(start);
      while newline.Some?
        invariant Draining(start, newline, goal)
        invariant fresh(data) && (accum == old(accum) || fresh(accum))
        decreases newline.Some?, len - start
      {
        start, newline := NextLine(start, newline.value, goal);
      }
      DrainOne(decode, State(data[start..len], TheReply()));
      Compact(start);
    }
  }
}
