/** Conversation messages, the grammar of a history, and the cut that fits it to a window. */
module History {
  datatype ToolCall = ToolCall(id: string, name: string, arguments: string)

  /** A call as the executor and the tool message carry it. */
  datatype Call = Call(id: string, name: string)

  datatype Message =
    | User(content: string)
    | Assistant(content: string, calls: seq<ToolCall>)
    | Tool(content: string, call: Call)

  function CallsOf(calls: seq<ToolCall>): (r: multiset<Call>)
    ensures |r| == |calls|
  {
    if calls == [] then multiset{} else multiset{Call(calls[0].id, calls[0].name)} + CallsOf(calls[1..])
  }

  /** The calls a message makes; only an assistant message makes any. */
  function Asked(m: Message): multiset<Call> {
    if m.Assistant? then CallsOf(m.calls) else multiset{}
  }

  /** The calls answered by the tool results at positions a, ..., b - 1. */
  function Answers(h: seq<Message>, a: nat, b: nat): multiset<Call>
    requires b <= |h|
  {
    if a >= b then multiset{}
    else Answers(h, a, b - 1) + if h[b - 1].Tool? then multiset{h[b - 1].call} else multiset{}
  }

  /** Where the run of tool results directly after position `i` ends. */
  function BlockEnd(h: seq<Message>, i: nat): (e: nat)
    requires i < |h|
    ensures i < e <= |h|
    ensures forall k | i < k < e :: h[k].Tool?
    ensures e < |h| ==> !h[e].Tool?
    decreases |h| - i
  {
    if i + 1 < |h| && h[i + 1].Tool? then BlockEnd(h, i + 1) else i + 1
  }

  /** The tool results directly after a message answer its calls, each exactly once. */
  predicate BlockAnswered(h: seq<Message>, i: nat)
    requires i < |h|
  {
    Answers(h, i + 1, BlockEnd(h, i)) == Asked(h[i])
  }

  predicate AnsweredBefore(h: seq<Message>, j: nat)
    requires j <= |h|
  {
    forall i {:trigger BlockAnswered(h, i)} | 0 <= i < j && !h[i].Tool? :: BlockAnswered(h, i)
  }

  predicate ToolsAfter(h: seq<Message>, j: nat) {
    forall i | j < i < |h| :: h[i].Tool?
  }

  /** Every tool result follows its owner, and every call is answered exactly once, in
      any order, before the next message that is no tool result. */
  predicate Closed(h: seq<Message>) {
    (h != [] ==> !h[0].Tool?) && AnsweredBefore(h, |h|)
  }

  /** Closed up to an assistant message at `j` some of whose calls are outstanding. */
  predicate OpenAt(h: seq<Message>, j: nat, outstanding: multiset<Call>) {
    && j < |h| && h[j].Assistant? && !h[0].Tool?
    && AnsweredBefore(h, j) && ToolsAfter(h, j)
    && Answers(h, j + 1, |h|) + outstanding == Asked(h[j])
  }

  // ----- locality

  lemma {:induction false} AnswersSame(h: seq<Message>, g: seq<Message>, a: nat, b: nat)
    requires b <= |h| && b <= |g| && forall k | a <= k < b :: h[k] == g[k]
    ensures Answers(h, a, b) == Answers(g, a, b)
  {
    if a < b {
      AnswersSame(h, g, a, b - 1);
    }
  }

  /** `g` is `h` from position `j` on. */
  predicate IsSuffix(g: seq<Message>, h: seq<Message>, j: nat) {
    |h| == j + |g| && forall k | 0 <= k < |g| :: g[k] == h[j + k]
  }

  lemma {:induction false} AnswersShift(g: seq<Message>, h: seq<Message>, j: nat, a: nat, b: nat)
    requires IsSuffix(g, h, j) && b <= |g|
    ensures Answers(g, a, b) == Answers(h, j + a, j + b)
    decreases b
  {
    if a < b {
      assert g[b - 1] == h[j + (b - 1)];
      AnswersShift(g, h, j, a, b - 1);
    }
  }

  lemma {:induction false} AnswersContain(h: seq<Message>, a: nat, b: nat, k: nat)
    requires a <= k < b <= |h| && h[k].Tool?
    ensures h[k].call in Answers(h, a, b)
  {
    if k < b - 1 {
      AnswersContain(h, a, b - 1, k);
    }
  }

  lemma {:induction false} BlockEndIs(h: seq<Message>, i: nat, e: nat)
    requires i < e <= |h| && (forall k | i < k < e :: h[k].Tool?) && (e < |h| ==> !h[e].Tool?)
    ensures BlockEnd(h, i) == e
  {
  }

  // ----- the grammar, message by message

  /** The calls of a message, in order. */
  function CallList(calls: seq<ToolCall>): (r: seq<Call>)
    ensures |r| == |calls|
    ensures forall k | 0 <= k < |r| :: r[k] == Call(calls[k].id, calls[k].name)
  {
    seq(|calls|, k requires 0 <= k < |calls| => Call(calls[k].id, calls[k].name))
  }

  /** The calls answered by a run of tool results, in order. */
  function ResultList(h: seq<Message>, a: nat, b: nat): (r: seq<Call>)
    requires a <= b <= |h| && forall j | a <= j < b :: h[j].Tool?
    ensures |r| == b - a && forall k | 0 <= k < |r| :: r[k] == h[a + k].call
  {
    seq(b - a, k requires 0 <= k < b - a => h[a + k].call)
  }

  lemma {:induction false} CallsAre(calls: seq<ToolCall>)
    ensures CallsOf(calls) == multiset(CallList(calls))
  {
    if calls != [] {
      CallsAre(calls[1..]);
      assert CallList(calls) == [Call(calls[0].id, calls[0].name)] + CallList(calls[1..]);
    }
  }

  lemma {:induction false} AnswersAre(h: seq<Message>, a: nat, b: nat)
    requires a <= b <= |h| && forall j | a <= j < b :: h[j].Tool?
    ensures Answers(h, a, b) == multiset(ResultList(h, a, b))
  {
    if a < b {
      AnswersAre(h, a, b - 1);
      assert ResultList(h, a, b) == ResultList(h, a, b - 1) + [h[b - 1].call];
    }
  }

  function CallsIn(m: Message): seq<ToolCall> {
    if m.Assistant? then m.calls else []
  }

  /** Directly after the message come as many tool results as it made calls, for the same calls
      in any order, and then no further result. */
  predicate AnsweredInPlace(h: seq<Message>, i: nat)
    requires i < |h|
  {
    var end := i + 1 + |CallsIn(h[i])|;
    && end <= |h| && (forall j | i < j < end :: h[j].Tool?) && (end < |h| ==> !h[end].Tool?)
    && multiset(ResultList(h, i + 1, end)) == multiset(CallList(CallsIn(h[i])))
  }

  lemma SameSize(a: seq<Call>, b: seq<Call>)
    requires multiset(a) == multiset(b)
    ensures |a| == |b|
  {
    assert |multiset(a)| == |a| && |multiset(b)| == |b|;
  }

  lemma AskedIs(m: Message)
    ensures Asked(m) == multiset(CallList(CallsIn(m)))
  {
    CallsAre(CallsIn(m));
  }

  lemma BlockIsInPlace(h: seq<Message>, i: nat)
    requires i < |h| && BlockAnswered(h, i)
    ensures AnsweredInPlace(h, i)
  {
    var e := BlockEnd(h, i);
    AskedIs(h[i]);
    AnswersAre(h, i + 1, e);
    hide Answers, CallList, ResultList, Asked, BlockEnd;
    SameSize(ResultList(h, i + 1, e), CallList(CallsIn(h[i])));
  }

  lemma InPlaceIsBlock(h: seq<Message>, i: nat)
    requires i < |h| && AnsweredInPlace(h, i)
    ensures BlockAnswered(h, i)
  {
    var e := i + 1 + |CallsIn(h[i])|;
    hide Answers, CallList, ResultList, Asked, CallsIn, BlockEnd;
    BlockEndIs(h, i, e);
    AskedIs(h[i]);
    AnswersAre(h, i + 1, e);
  }

  /** A history is closed exactly if it starts with no result and every other message is
      answered in place. */
  lemma ClosedMeans(h: seq<Message>)
    ensures Closed(h) <==>
              && (h != [] ==> !h[0].Tool?)
              && forall i | 0 <= i < |h| && !h[i].Tool? :: AnsweredInPlace(h, i)
  {
    forall i | 0 <= i < |h| ensures BlockAnswered(h, i) <==> AnsweredInPlace(h, i) {
      if BlockAnswered(h, i) {
        BlockIsInPlace(h, i);
      }
      if AnsweredInPlace(h, i) {
        InPlaceIsBlock(h, i);
      }
    }
    hide BlockAnswered, AnsweredInPlace;
  }

  // ----- building a history

  /** What follows a block cannot disturb it. */
  lemma BlockKept(h: seq<Message>, m: Message, i: nat)
    requires i < |h| && BlockAnswered(h, i) && (m.Tool? ==> BlockEnd(h, i) < |h|)
    ensures BlockAnswered(h + [m], i)
  {
    var e := BlockEnd(h, i);
    assert forall k | 0 <= k < |h| :: (h + [m])[k] == h[k];
    BlockEndIs(h + [m], i, e);
    AnswersSame(h, h + [m], i + 1, e);
  }

  lemma ClosedSnoc(h: seq<Message>, m: Message)
    requires Closed(h) && !m.Tool? && Asked(m) == multiset{}
    ensures Closed(h + [m])
  {
    forall i | 0 <= i < |h| && !h[i].Tool? ensures BlockAnswered(h + [m], i) {
      assert BlockAnswered(h, i);
      BlockKept(h, m, i);
    }
    assert BlockEnd(h + [m], |h|) == |h| + 1;
  }

  lemma OpenCalls(h: seq<Message>, m: Message)
    requires Closed(h) && m.Assistant?
    ensures OpenAt(h + [m], |h|, Asked(m))
  {
    forall i | 0 <= i < |h| && !h[i].Tool? ensures BlockAnswered(h + [m], i) {
      assert BlockAnswered(h, i);
      BlockKept(h, m, i);
    }
  }

  lemma EarlierKept(h: seq<Message>, j: nat, m: Message)
    requires j < |h| && !h[j].Tool? && AnsweredBefore(h, j)
    ensures AnsweredBefore(h + [m], j)
  {
    forall i | 0 <= i < j && !h[i].Tool? ensures BlockAnswered(h + [m], i) {
      assert BlockAnswered(h, i);
      if BlockEnd(h, i) > j {
        assert false;
      }
      BlockKept(h, m, i);
    }
  }

  lemma OpenAnswer(h: seq<Message>, j: nat, outstanding: multiset<Call>, m: Message)
    requires OpenAt(h, j, outstanding) && m.Tool? && m.call in outstanding
    ensures OpenAt(h + [m], j, outstanding - multiset{m.call})
  {
    EarlierKept(h, j, m);
    assert ToolsAfter(h + [m], j);
    LastAnswered(h, j, outstanding, m);
  }

  lemma LastAnswered(h: seq<Message>, j: nat, outstanding: multiset<Call>, m: Message)
    requires j < |h| && m.Tool? && m.call in outstanding
    ensures Answers(h + [m], j + 1, |h| + 1) + (outstanding - multiset{m.call}) == Answers(h, j + 1, |h|) + outstanding
  {
    AnswersSnoc(h, m, j + 1);
    MoveOne(Answers(h, j + 1, |h|), outstanding, m.call);
  }

  lemma AnswersSnoc(h: seq<Message>, m: Message, a: nat)
    requires m.Tool? && a <= |h|
    ensures Answers(h + [m], a, |h| + 1) == Answers(h, a, |h|) + multiset{m.call}
  {
    AnswersSame(h, h + [m], a, |h|);
  }

  lemma MoveOne(done: multiset<Call>, outstanding: multiset<Call>, c: Call)
    requires c in outstanding
    ensures (done + multiset{c}) + (outstanding - multiset{c}) == done + outstanding
  {
  }

  lemma OpenCloses(h: seq<Message>, j: nat)
    requires OpenAt(h, j, multiset{})
    ensures Closed(h)
  {
    BlockEndIs(h, j, |h|);
    var answers := Answers(h, j + 1, |h|);
    assert answers + multiset{} == answers;
    assert BlockAnswered(h, j);
    forall i | 0 <= i < |h| && !h[i].Tool? ensures BlockAnswered(h, i) {
      if i > j {
        assert false;
      }
    }
  }

  // ----- reading a closed history

  /** The greatest index not above `s` that is not a tool result; 0 when there is none. */
  function Owner(h: seq<Message>, s: nat): (o: nat)
    requires s < |h|
    ensures o <= s
    ensures forall i | o < i <= s :: h[i].Tool?
    ensures h[o].Tool? ==> o == 0
  {
    if s == 0 || !h[s].Tool? then s else Owner(h, s - 1)
  }

  lemma {:induction false} OwnerUnique(h: seq<Message>, o: nat, s: nat)
    requires o <= s < |h| && !h[o].Tool? && forall i | o < i <= s :: h[i].Tool?
    ensures Owner(h, s) == o
  {
    if o < s {
      OwnerUnique(h, o, s - 1);
    }
  }

  /** A suffix that does not start inside a block is itself closed. */
  lemma ClosedSuffix(h: seq<Message>, j: nat)
    requires Closed(h) && j <= |h| && (j < |h| ==> !h[j].Tool?)
    ensures Closed(h[j..])
  {
    var g := h[j..];
    forall i | 0 <= i < |g| && !g[i].Tool? ensures BlockAnswered(g, i) {
      assert g[i] == h[j + i];
      assert BlockAnswered(h, j + i);
      BlockShift(g, h, j, i);
    }
  }

  lemma {:induction false} BlockEndShift(g: seq<Message>, h: seq<Message>, j: nat, i: nat)
    requires IsSuffix(g, h, j) && i < |g|
    ensures BlockEnd(h, j + i) == j + BlockEnd(g, i)
    decreases |g| - i
  {
    if i + 1 < |g| {
      assert g[i + 1] == h[j + (i + 1)];
      if g[i + 1].Tool? {
        BlockEndShift(g, h, j, i + 1);
      }
    }
  }

  lemma BlockShift(g: seq<Message>, h: seq<Message>, j: nat, i: nat)
    requires IsSuffix(g, h, j) && i < |g| && BlockAnswered(h, j + i)
    ensures BlockAnswered(g, i)
  {
    BlockEndShift(g, h, j, i);
    AnswersShift(g, h, j, i + 1, BlockEnd(g, i));
  }

  /** A message that is no tool result leaves what was before it closed. */
  lemma ClosedPrefix(h: seq<Message>, m: Message)
    requires Closed(h + [m]) && !m.Tool?
    ensures Closed(h)
  {
    var g := h + [m];
    assert (forall k | 0 <= k < |h| :: g[k] == h[k]) && g[|h|] == m;
    forall i | 0 <= i < |h| && !h[i].Tool? ensures BlockAnswered(h, i) {
      assert BlockAnswered(g, i);
      BlockCut(g, h, i);
    }
    hide BlockAnswered;
  }

  lemma BlockCut(g: seq<Message>, h: seq<Message>, i: nat)
    requires |g| == |h| + 1 && (forall k | 0 <= k < |h| :: g[k] == h[k]) && !g[|h|].Tool?
    requires i < |h| && BlockAnswered(g, i)
    ensures BlockAnswered(h, i)
  {
    var e := BlockEnd(g, i);
    assert e <= |h|;
    BlockEndIs(h, i, e);
    hide BlockEnd, Answers;
    AnswersSame(h, g, i + 1, e);
  }

  /** Every tool result's owner is an assistant message that made that call. */
  lemma ResultHasOwner(h: seq<Message>, s: nat)
    requires Closed(h) && s < |h| && h[s].Tool?
    ensures var o := Owner(h, s); o < s && h[o].Assistant? && h[s].call in Asked(h[o])
  {
    var o := Owner(h, s);
    assert s < BlockEnd(h, o);
    assert BlockAnswered(h, o);
    AnswersContain(h, o + 1, BlockEnd(h, o), s);
  }

  /** A message that is no tool result never directly follows one that made calls. */
  lemma BlockEndsBefore(h: seq<Message>, j: nat)
    requires Closed(h) && 0 < j < |h| && !h[j].Tool?
    ensures Asked(h[j - 1]) == multiset{}
  {
    if !h[j - 1].Tool? {
      assert BlockAnswered(h, j - 1);
    }
  }

  // ----- fitting a history to a window

  predicate HasCallId(m: Message, id: string) {
    m.Assistant? && id != "" && exists i :: 0 <= i < |m.calls| && m.calls[i].id == id
  }

  /** The nearest message before `j` that made a call with this id; `otherwise` if none. */
  function FindOwner(h: seq<Message>, j: nat, id: string, otherwise: nat): (r: nat)
    requires j <= |h|
    ensures r == otherwise || r < j
  {
    if j == 0 then otherwise
    else if HasCallId(h[j - 1], id) then j - 1
    else FindOwner(h, j - 1, id, otherwise)
  }

  predicate MakesCalls(m: Message) {
    m.Assistant? && m.calls != []
  }

  function StepBack(h: seq<Message>, a: nat): (r: nat)
    requires 0 < a < |h|
    ensures r <= a
  {
    var b := if h[a].Tool? then FindOwner(h, a, h[a].call.id, a) else a;
    if b > 0 && MakesCalls(h[b - 1]) then b - 1 else b
  }

  /** Rounds of stepping back until nothing changes; each changed round moves down. */
  function AdjustedStart(h: seq<Message>, a: nat): (r: nat)
    requires a < |h|
    ensures r <= a
  {
    if a == 0 then 0
    else if StepBack(h, a) < a then AdjustedStart(h, StepBack(h, a))
    else a
  }

  method AdjustContextStart(h: seq<Message>, start: nat) returns (adjusted: nat)
    ensures start < |h| ==> adjusted == AdjustedStart(h, start)
    ensures start >= |h| ==> adjusted == start
  {
    if start == 0 || start >= |h| {
      return start;
    }
    adjusted := start;
    var changed := true;
    while changed
      invariant adjusted <= start
      invariant AdjustedStart(h, start) == AdjustedStart(h, adjusted)
      invariant !changed ==> adjusted == AdjustedStart(h, adjusted)
      decreases adjusted, if changed then 1 else 0
    {
      changed := false;
      if adjusted == 0 {
        break;
      }
      ghost var before := adjusted;
      var first := h[adjusted];
      if first.Tool? {
        var j := adjusted;
        while j > 0
          invariant j <= adjusted == before && !changed
          invariant FindOwner(h, before, first.call.id, before) == FindOwner(h, j, first.call.id, before)
        {
          if HasCallId(h[j - 1], first.call.id) {
            adjusted := j - 1;
            changed := true;
            break;
          }
          j := j - 1;
        }
      }
      if adjusted > 0 {
        if MakesCalls(h[adjusted - 1]) {
          adjusted := adjusted - 1;
          changed := true;
        }
      }
    }
  }

  /** What the provider is given: the whole history, or the cut suffix. */
  function Window(h: seq<Message>, max: nat): seq<Message> {
    if max > 0 && |h| > max then h[AdjustedStart(h, |h| - max)..] else h
  }

  /** A history that fits is given whole; of a longer one, a suffix of at least `max` messages. */
  method SnapshotForContext(h: seq<Message>, max: nat) returns (window: seq<Message>, truncated: bool)
    ensures window == Window(h, max)
    ensures max == 0 || |h| <= max ==> window == h
    ensures 0 < max < |h| ==> max <= |window| <= |h| && window == h[|h| - |window|..]
    ensures truncated == (|window| < |h|)
  {
    var start := 0;
    if max > 0 && |h| > max {
      start := AdjustContextStart(h, |h| - max);
    }
    window, truncated := h[start..], start > 0;
  }

  /** On any history the start moves down only, only onto a message that made calls, and stops
      where no call message precedes it and no earlier message made the call it answers. */
  lemma {:induction false} AdjustedStartStops(h: seq<Message>, s: nat)
    requires s < |h|
    ensures var a := AdjustedStart(h, s);
            && a <= s
            && (a < s ==> h[a].Assistant? && h[a].calls != [])
            && (a > 0 ==> !(h[a - 1].Assistant? && h[a - 1].calls != []))
            && (a > 0 && h[a].Tool? && h[a].call.id != "" ==>
                  forall i, k | 0 <= i < a && h[i].Assistant? && 0 <= k < |h[i].calls| :: h[i].calls[k].id != h[a].call.id)
    decreases s
  {
    if s > 0 {
      var id := if h[s].Tool? then h[s].call.id else "";
      FoundOwner(h, s, id, s);
      var b := StepBack(h, s);
      if b < s {
        AdjustedStartStops(h, b);
      }
    }
  }

  lemma {:induction false} FoundOwner(h: seq<Message>, j: nat, id: string, otherwise: nat)
    requires j <= otherwise < |h|
    ensures var o := FindOwner(h, j, id, otherwise);
            if o == otherwise then forall i | 0 <= i < j :: !HasCallId(h[i], id)
            else o < j && h[o].Assistant? && h[o].calls != []
  {
    if j > 0 && !HasCallId(h[j - 1], id) {
      FoundOwner(h, j - 1, id, otherwise);
    }
  }

  /** The one cut the adjustment cannot repair: between two results of a block, the second
      of which carries an empty call id. */
  predicate Unrepairable(h: seq<Message>, s: nat)
    requires 0 < s < |h|
  {
    h[s].Tool? && h[s].call.id == "" && h[s - 1].Tool?
  }

  lemma CallIdFound(m: Message, c: Call)
    requires m.Assistant? && c in Asked(m) && c.id != ""
    ensures HasCallId(m, c.id)
  {
    CallsOfContains(m.calls, c);
  }

  lemma {:induction false} CallsOfContains(calls: seq<ToolCall>, c: Call)
    requires c in CallsOf(calls)
    ensures exists i :: 0 <= i < |calls| && calls[i].id == c.id
  {
    if c == Call(calls[0].id, calls[0].name) {
    } else {
      CallsOfContains(calls[1..], c);
      var i :| 0 <= i < |calls[1..]| && calls[1..][i].id == c.id;
      assert calls[i + 1].id == c.id;
    }
  }

  lemma {:induction false} FindOwnerSkipsResults(h: seq<Message>, o: nat, j: nat, id: string, otherwise: nat)
    requires o < j <= |h| && HasCallId(h[o], id) && forall i | o < i < j :: h[i].Tool?
    ensures FindOwner(h, j, id, otherwise) == o
  {
    if j > o + 1 {
      FindOwnerSkipsResults(h, o, j - 1, id, otherwise);
    }
  }

  lemma {:induction false} NoOwnerForEmptyId(h: seq<Message>, j: nat, otherwise: nat)
    requires j <= |h|
    ensures FindOwner(h, j, "", otherwise) == otherwise
  {
    if j > 0 {
      NoOwnerForEmptyId(h, j - 1, otherwise);
    }
  }

  lemma StartOutsideBlock(h: seq<Message>, a: nat)
    requires Closed(h) && a < |h| && !h[a].Tool?
    ensures AdjustedStart(h, a) == a
  {
    if a > 0 {
      BlockEndsBefore(h, a);
    }
  }

  lemma StepBackToOwner(h: seq<Message>, s: nat)
    requires Closed(h) && 0 < s < |h| && h[s].Tool? && !Unrepairable(h, s)
    ensures StepBack(h, s) == Owner(h, s) < s
    ensures !h[Owner(h, s)].Tool?
  {
    ResultHasOwner(h, s);
    var o, id := Owner(h, s), h[s].call.id;
    if id != "" {
      CallIdFound(h[o], h[s].call);
      FindOwnerSkipsResults(h, o, s, id, s);
      if o > 0 {
        BlockEndsBefore(h, o);
      }
    } else {
      NoOwnerForEmptyId(h, s, s);
      OwnerUnique(h, s - 1, s);
    }
  }

  /** On a closed history the start moves to the owner of the block it falls in, which is
      the greatest start not above it outside every block; and exactly the unrepairable
      cuts are left inside. */
  lemma AdjustedStartExact(h: seq<Message>, s: nat)
    requires Closed(h) && 0 < s < |h|
    ensures AdjustedStart(h, s) == if Unrepairable(h, s) then s else Owner(h, s)
  {
    if !h[s].Tool? {
      StartOutsideBlock(h, s);
    } else if Unrepairable(h, s) {
      NoOwnerForEmptyId(h, s, s);
    } else {
      StepBackToOwner(h, s);
      StartOutsideBlock(h, Owner(h, s));
    }
  }

  predicate Repairable(h: seq<Message>, max: nat) {
    max > 0 && |h| > max ==> !Unrepairable(h, |h| - max)
  }

  /** A history that fits is the window. Of a longer one the window is closed exactly when the
      cut is repairable; it is then the shortest of the closed suffixes with at least `max`
      messages, itself one of them, and otherwise the last `max` messages. */
  lemma WindowExact(h: seq<Message>, max: nat)
    requires Closed(h)
    ensures max == 0 || |h| <= max ==> Window(h, max) == h
    ensures 0 < max < |h| ==> var w := Window(h, max); max <= |w| <= |h| && w == h[|h| - |w|..]
    ensures Closed(Window(h, max)) <==> Repairable(h, max)
    ensures max > 0 && Repairable(h, max) ==>
              forall j | 0 <= j < |h| && |h| - j >= max && Closed(h[j..]) :: |h| - j >= |Window(h, max)|
    ensures !Repairable(h, max) ==> var w := Window(h, max); |w| == max && w[0].Tool? && w[0].call.id == ""
  {
    if max > 0 && |h| > max {
      var s := |h| - max;
      AdjustedStartExact(h, s);
      if Unrepairable(h, s) {
        assert h[s..][0] == h[s];
      } else {
        var o := Owner(h, s);
        if h[s].Tool? {
          ResultHasOwner(h, s);
        }
        ClosedSuffix(h, o);
        forall j | 0 <= j < |h| && |h| - j >= max && Closed(h[j..]) ensures j <= o {
          assert h[j..][0] == h[j];
        }
      }
    }
  }

  /** With an empty call id the promise fails: a window of one message is an orphan. */
  lemma OrphanedResultExample() returns (h: seq<Message>)
    ensures Closed(h) && |h| == 3 && !Repairable(h, 1) && !Closed(Window(h, 1))
  {
    var call := ToolCall("", "exec", "{}");
    var result := Tool("ok", Call("", "exec"));
    var asking := Assistant("", [call, call]);
    assert [call, call][1..] == [call];
    assert CallsOf([call]) == multiset{result.call} + CallsOf([call][1..]);
    OpenCalls([], asking);
    var h1 := [] + [asking];
    OpenAnswer(h1, 0, multiset{result.call, result.call}, result);
    var h2 := h1 + [result];
    OpenAnswer(h2, 0, multiset{result.call}, result);
    h := h2 + [result];
    OpenCloses(h, 0);
    WindowExact(h, 1);
  }
}
