/** What single lines of a streamed reply do, character by character. */
module StreamLines {
  import opened Sequences
  import opened Wrappers
  import opened Streaming

  /** Nothing that ends a line or the buffer. */
  predicate Plain(s: string) {
    '\n' !in s && '\0' !in s
  }

  predicate IsReturn(cr: string) {
    cr == "" || cr == "\r"
  }

  lemma LineRead(decode: Decoder, r: Reply, line: string, rest: string)
    requires Plain(line)
    ensures Feed(decode, State("", r), line + "\n" + rest) ==
            if IsFinish(line) then State(Blocked(line + "\n" + rest, |line|), Finished(r))
            else Feed(decode, State("", AddLine(decode, r, line)), rest)
  {
    var s := line + "\n" + rest;
    LineEndIs(s, |line|);
    assert s[..|line|] == line && s[|line| + 1..] == rest && "" + s == s && "" + rest == rest;
    DrainOne(decode, State(s, r));
    hide Drain, LineEnd, AddLine, IsFinish, Blocked;
  }

  lemma DataIs(data: string, cr: string)
    requires IsReturn(cr) && (data != "" ==> data[|data| - 1] != '\r')
    ensures PREFIX <= "data: " + data + cr && Data("data: " + data + cr) == data
  {
    var line := "data: " + data + cr;
    assert line[6..] == data + cr;
    assert data + "" == data && (data + "\r")[..|data|] == data;
  }

  /** The finishing line, with or without a carriage return, ends the reply whatever follows. */
  lemma DoneLine(decode: Decoder, r: Reply, cr: string, rest: string)
    requires IsReturn(cr)
    ensures Feed(decode, State("", r), "data: [DONE]" + cr + "\n" + rest).reply
         == Reply(r.content, r.calls, r.finish, r.usage, true, r.emitted + [Chunk("", true)])
  {
    DataIs("[DONE]", cr);
    assert "data: " + "[DONE]" == "data: [DONE]";
    LineRead(decode, r, "data: [DONE]" + cr, rest);
    hide Feed, AddLine, Blocked, Data;
  }

  /** A payload line adds its payload, with or without a carriage return; text that is no
      payload, or no data line, adds nothing. Reading goes on behind the line. */
  lemma PayloadLine(decode: Decoder, r: Reply, data: string, cr: string, rest: string)
    requires Plain(data) && IsReturn(cr) && data != "[DONE]" && (data != "" ==> data[|data| - 1] != '\r')
    ensures decode(data) == None ==>
              Feed(decode, State("", r), "data: " + data + cr + "\n" + rest) == Feed(decode, State("", r), rest)
    ensures decode(data).Some? ==>
              var p := decode(data).value;
              var more := if p.content.Some? then p.content.value else "";
              var after := Reply(r.content + more, AddDeltas(r.calls, p.calls),
                                 if p.finish.Some? then p.finish else r.finish,
                                 if p.usage.Some? then p.usage.value else r.usage,
                                 r.done, r.emitted + if p.content.Some? then [Chunk(more, false)] else []);
              Feed(decode, State("", r), "data: " + data + cr + "\n" + rest) == Feed(decode, State("", after), rest)
  {
    DataIs(data, cr);
    LineRead(decode, r, "data: " + data + cr, rest);
    hide Feed, AddDeltas, Blocked, Data;
  }

  lemma OtherLine(decode: Decoder, r: Reply, line: string, rest: string)
    requires Plain(line) && !("data: " <= line)
    ensures Feed(decode, State("", r), line + "\n" + rest) == Feed(decode, State("", r), rest)
  {
    LineRead(decode, r, line, rest);
    hide Feed, Blocked;
  }

  /** What is no complete line yet waits in the buffer. */
  lemma PartialLine(decode: Decoder, r: Reply, text: string)
    requires Plain(text)
    ensures Feed(decode, State("", r), text) == State(text, r)
  {
    assert "" + text == text;
    DrainOne(decode, State(text, r));
  }

  /** A NUL in the stream stops the reading where it stands, whatever follows. */
  lemma NulStops(decode: Decoder, r: Reply, text: string, more: string, later: string)
    requires Plain(text)
    ensures Feed(decode, State("", r), text + "\0" + more) == State(text + "\0" + more, r)
    ensures Feed(decode, State(text + "\0" + more, r), later).reply == r
  {
    var s := text + "\0" + more;
    LineEndIs(s, |text|);
    LineEndIs(s + later, |text|);
    assert "" + s == s;
    DrainOne(decode, State(s, r));
    DrainOne(decode, State(s + later, r));
    hide Drain, LineEnd;
  }

  /** One piece of a call: its id and name replace, its arguments are appended to those of its
      index; without an index it is a new call; calls skipped over are empty. */
  lemma PieceIs(calls: seq<Call>, d: CallDelta)
    ensures var k := if d.index.Some? then d.index.value else |calls|;
            var after := AddDeltas(calls, [d]);
            var was := if k < |calls| then calls[k] else Call("", "", "");
            && |after| == (if k < |calls| then |calls| else k + 1)
            && after[k] == Call(if d.id.Some? then d.id.value else was.id,
                                if d.name.Some? then d.name.value else was.name,
                                was.args + if d.args.Some? then d.args.value else "")
            && (forall j | 0 <= j < |calls| && j != k :: after[j] == calls[j])
            && (forall j | |calls| <= j < k :: after[j] == Call("", "", ""))
  {
    LastDelta(calls, d);
    var padded := Padded(calls, Or(d.index, |calls|));
    assert forall j | 0 <= j < |calls| :: padded[j] == padded[..|calls|][j] == calls[j];
  }

  /** Pieces are taken in order. */
  lemma PiecesAreTaken(calls: seq<Call>, d: CallDelta, ds: seq<CallDelta>)
    ensures AddDeltas(calls, []) == calls
    ensures AddDeltas(calls, [d] + ds) == AddDeltas(AddDeltas(calls, [d]), ds)
  {
    AddDeltasConcat(calls, [d], ds);
  }
}
