/** A session and its JSONL file: incremental appends, full rewrites, rollback and loading. */
module SessionStore {
  import opened Wrappers
  import opened History

  /** One message line of the file, field by field. */
  datatype Record = Record(
    role: string,
    content: string,
    toolCalls: Option<seq<ToolCall>>,
    toolCallId: Option<string>,
    name: Option<string>)

  datatype Line =
    | Meta(key: string, lastConsolidated: nat, savedCount: nat)
    | Entry(record: Record)

  function Serialize(m: Message): Record {
    match m
    case User(content) => Record("user", content, None, None, None)
    case Assistant(content, calls) =>
      Record("assistant", content, if calls != [] then Some(calls) else None, None, None)
    case Tool(content, call) =>
      Record("tool", content, None,
             if call.id != "" then Some(call.id) else None,
             if call.name != "" then Some(call.name) else None)
  }

  function OrEmpty(s: Option<string>): string {
    if s.Some? then s.value else ""
  }

  function Deserialize(r: Record): Message {
    if r.role == "assistant" then Assistant(r.content, if r.toolCalls.Some? then r.toolCalls.value else [])
    else if r.role == "tool" then Tool(r.content, Call(OrEmpty(r.toolCallId), OrEmpty(r.name)))
    else User(r.content)
  }

  /** Absent fields read back as the empty values they were omitted for. */
  lemma RecordRoundTrip(m: Message)
    ensures Deserialize(Serialize(m)) == m
  {
    assert "user"[0] != "assistant"[0] && "user"[0] != "tool"[0] && "tool"[0] != "assistant"[0];
  }

  function Entries(ms: seq<Message>): (r: seq<Line>)
    ensures |r| == |ms|
    ensures forall i | 0 <= i < |r| :: r[i] == Entry(Serialize(ms[i]))
  {
    seq(|ms|, i requires 0 <= i < |ms| => Entry(Serialize(ms[i])))
  }

  datatype SessionState = SessionState(
    key: string,
    messages: seq<Message>,
    lastConsolidated: nat,
    lastSaved: nat,
    needsFull: bool,
    disk: Option<seq<Line>>)

  function NewSession(key: string): SessionState {
    SessionState(key, [], 0, 0, true, None)
  }

  function WithMessage(s: SessionState, m: Message): SessionState {
    s.(messages := s.messages + [m])
  }

  function FullFile(s: SessionState): seq<Line> {
    [Meta(s.key, s.lastConsolidated, |s.messages|)] + Entries(s.messages)
  }

  function AfterSave(s: SessionState): SessionState {
    if s.needsFull || s.disk.None? || s.lastSaved > |s.messages| then
      s.(disk := Some(FullFile(s)), lastSaved := |s.messages|, needsFull := false)
    else
      s.(disk := Some(s.disk.value + Entries(s.messages[s.lastSaved..])), lastSaved := |s.messages|)
  }

  function Min(a: nat, b: nat): nat {
    if a < b then a else b
  }

  function RolledBack(s: SessionState, to: nat): SessionState {
    if to >= |s.messages| then s
    else s.(messages := s.messages[..to],
            lastSaved := Min(s.lastSaved, to),
            lastConsolidated := Min(s.lastConsolidated, to))
  }

  /** Does a message count `window` past the consolidation cursor call for consolidation? */
  predicate Due(s: SessionState, window: nat) {
    |s.messages| - Min(s.lastConsolidated, |s.messages|) >= window
  }

  /** Automatic consolidation; `memoryOk` is whether the memory files could be written. */
  function Consolidated(s: SessionState, window: nat, memoryOk: bool): SessionState {
    var t := s.(lastConsolidated := Min(s.lastConsolidated, |s.messages|));
    if !Due(s, window) || !memoryOk then t
    else AfterSave(t.(lastConsolidated := |t.messages|, needsFull := true))
  }

  /** Loading accumulates the messages and the last consolidation cursor seen, if any. */
  function LoadLines(lines: seq<Line>): (seq<Message>, Option<nat>) {
    if lines == [] then ([], None)
    else
      var (ms, cursor) := LoadLines(lines[..|lines| - 1]);
      match lines[|lines| - 1]
      case Meta(_, c, _) => (ms, Some(c))
      case Entry(r) => (ms + [Deserialize(r)], cursor)
  }

  function Loaded(key: string, lines: seq<Line>): SessionState {
    var (ms, cursor) := LoadLines(lines);
    SessionState(key, ms, if cursor.Some? then cursor.value else |ms|, |ms|, false, Some(lines))
  }

  class Session {
    const key: string
    var messages: seq<Message>
    var lastConsolidated: nat
    var lastSavedCount: nat
    var needsFullSave: bool
    var disk: Option<seq<Line>>

    ghost function View(): SessionState
      reads this
    {
      SessionState(key, messages, lastConsolidated, lastSavedCount, needsFullSave, disk)
    }

    constructor (key: string)
      ensures View() == NewSession(key)
    {
      this.key := key;
      messages, lastConsolidated, lastSavedCount, needsFullSave, disk := [], 0, 0, true, None;
    }

    constructor Load(key: string, lines: seq<Line>)
      ensures View() == Loaded(key, lines)
    {
      this.key := key;
      messages, lastConsolidated, lastSavedCount, needsFullSave, disk := [], 0, 0, true, Some(lines);
      new;
      var metadataLoaded := false;
      for i := 0 to |lines|
        invariant LoadLines(lines[..i]) == (messages, if metadataLoaded then Some(lastConsolidated) else None)
        invariant disk == Some(lines)
      {
        assert lines[..i + 1][..i] == lines[..i];
        match lines[i]
        case Meta(_, cursor, _) =>
          lastConsolidated := cursor;
          metadataLoaded := true;
        case Entry(record) =>
          messages := messages + [Deserialize(record)];
      }
      assert lines[..|lines|] == lines;
      if !metadataLoaded {
        lastConsolidated := |messages|;
      }
      lastSavedCount, needsFullSave := |messages|, false;
    }

    method AddMessage(m: Message)
      modifies this
      ensures View() == WithMessage(old(View()), m)
    {
      messages := messages + [m];
    }

    method RollbackMessages(to: nat)
      modifies this
      ensures View() == RolledBack(old(View()), to)
    {
      if to >= |messages| {
        return;
      }
      messages := messages[..to];
      if lastSavedCount > to {
        lastSavedCount := to;
      }
      if lastConsolidated > to {
        lastConsolidated := to;
      }
    }

    method Save()
      modifies this
      ensures View() == AfterSave(old(View()))
    {
      var total, saved := |messages|, lastSavedCount;
      if needsFullSave || disk.None? || saved > total {
        var file := [Meta(key, lastConsolidated, total)];
        for i := 0 to total
          invariant file == [Meta(key, lastConsolidated, total)] + Entries(messages)[..i]
        {
          file := file + [Entry(Serialize(messages[i]))];
        }
        assert file == FullFile(View());
        disk := Some(file);
        needsFullSave := false;
      } else {
        var file := disk.value;
        ghost var tail := Entries(messages[saved..]);
        for i := saved to total
          invariant file == disk.value + tail[..i - saved]
        {
          file := file + [Entry(Serialize(messages[i]))];
        }
        assert tail[..total - saved] == tail;
        disk := Some(file);
      }
      lastSavedCount := total;
    }

    method MaybeAutoConsolidate(window: nat, memoryOk: bool)
      modifies this
      ensures View() == Consolidated(old(View()), window, memoryOk)
      ensures var count := |old(messages)|;
              var cursor := if old(lastConsolidated) > count then count else old(lastConsolidated);
              if memoryOk && count - cursor >= window then
                && messages == old(messages) && lastConsolidated == lastSavedCount == count && !needsFullSave
                && disk == Some([Meta(key, count, count)] + Entries(messages))
              else
                View() == old(View()).(lastConsolidated := cursor)
    {
      if |messages| < lastConsolidated {
        lastConsolidated := |messages|;
      }
      var count, delta := |messages|, |messages| - lastConsolidated;
      if delta < window || !memoryOk {
        return;
      }
      lastConsolidated := count;
      needsFullSave := true;
      Save();
    }
  }

  // ----- what the file holds

  /** The file is one metadata line with the current cursor, then the saved messages. */
  predicate Synced(s: SessionState) {
    && s.lastConsolidated <= s.lastSaved <= |s.messages|
    && match s.disk
       case None => s.lastSaved == 0
       case Some(file) =>
         && |file| > 0 && file[0].Meta? && file[0].key == s.key
         && file[0].lastConsolidated == s.lastConsolidated
         && file[1..] == Entries(s.messages[..s.lastSaved])
  }

  predicate FullySaved(s: SessionState) {
    Synced(s) && s.disk.Some? && s.lastSaved == |s.messages|
  }

  datatype Op =
    | Add(m: Message)
    | AutoConsolidate(window: nat, memoryOk: bool)
    | SaveNow
    | RollbackTo(to: nat)

  function Apply(s: SessionState, op: Op): SessionState {
    match op
    case Add(m) => WithMessage(s, m)
    case AutoConsolidate(window, memoryOk) => Consolidated(s, window, memoryOk)
    case SaveNow => AfterSave(s)
    case RollbackTo(to) => RolledBack(s, to)
  }

  function ApplyAll(s: SessionState, ops: seq<Op>): SessionState
    decreases |ops|
  {
    if ops == [] then s else ApplyAll(Apply(s, ops[0]), ops[1..])
  }

  /** Checkable before the call: nothing already on disk is dropped. */
  predicate Legal(s: SessionState, op: Op) {
    op.RollbackTo? ==> op.to >= s.lastSaved
  }

  predicate LegalRun(s: SessionState, ops: seq<Op>)
    decreases |ops|
  {
    ops != [] ==> Legal(s, ops[0]) && LegalRun(Apply(s, ops[0]), ops[1..])
  }

  lemma EntriesAppend(a: seq<Message>, b: seq<Message>)
    ensures Entries(a) + Entries(b) == Entries(a + b)
  {
    var x, y := Entries(a) + Entries(b), Entries(a + b);
    assert forall i | 0 <= i < |y| :: x[i] == y[i];
  }

  lemma Whole(ms: seq<Message>)
    ensures ms[..|ms|] == ms
  {
  }

  lemma SplitMessages(ms: seq<Message>, n: nat)
    requires n <= |ms|
    ensures ms[..n] + ms[n..] == ms
  {
  }

  lemma FullFileHolds(s: SessionState)
    ensures FullFile(s) != [] && FullFile(s)[1..] == Entries(s.messages) && FullFile(s)[0] == Meta(s.key, s.lastConsolidated, |s.messages|)
  {
  }

  /** A save, incremental or not, leaves the file holding every message. */
  lemma SaveCompletes(s: SessionState)
    requires Synced(s)
    ensures FullySaved(AfterSave(s)) && AfterSave(s).messages == s.messages
  {
    Whole(s.messages);
    hide Entries, FullFile;
    if s.needsFull || s.disk.None? {
      FullFileHolds(s);
    } else {
      var kept, later := s.messages[..s.lastSaved], s.messages[s.lastSaved..];
      AppendedFile(s.disk.value, kept, later);
      SplitMessages(s.messages, s.lastSaved);
    }
  }

  /** Every operation keeps file and session in step, except exactly a rollback below
      what is saved. */
  lemma ApplySyncedExact(s: SessionState, op: Op)
    requires Synced(s)
    ensures Synced(Apply(s, op)) <==> Legal(s, op)
  {
    match op {
      case Add(m) =>
        assert (s.messages + [m])[..s.lastSaved] == s.messages[..s.lastSaved];
      case SaveNow =>
        SaveCompletes(s);
      case AutoConsolidate(window, memoryOk) =>
        if Due(s, window) && memoryOk {
          var t := s.(lastConsolidated := |s.messages|, needsFull := true);
          var u := AfterSave(t);
          assert u.messages[..u.lastSaved] == s.messages;
          assert u.disk.value[1..] == Entries(s.messages);
        }
      case RollbackTo(to) =>
        if to < |s.messages| {
          var t := RolledBack(s, to);
          if to >= s.lastSaved {
            assert t.messages[..t.lastSaved] == s.messages[..s.lastSaved];
          } else {
            assert |s.disk.value[1..]| == s.lastSaved;
          }
        }
    }
  }

  lemma {:induction false} RunSynced(s: SessionState, ops: seq<Op>)
    requires Synced(s) && LegalRun(s, ops)
    ensures Synced(ApplyAll(s, ops))
    decreases |ops|
  {
    if ops != [] {
      ApplySyncedExact(s, ops[0]);
      RunSynced(Apply(s, ops[0]), ops[1..]);
    }
  }

  lemma LoadLast(lines: seq<Line>, line: Line)
    ensures LoadLines(lines + [line]) ==
            match line
            case Meta(_, c, _) => (LoadLines(lines).0, Some(c))
            case Entry(r) => (LoadLines(lines).0 + [Deserialize(r)], LoadLines(lines).1)
  {
    assert (lines + [line])[..|lines|] == lines;
    hide Deserialize;
  }

  lemma {:induction false} LoadEntries(meta: Line, ms: seq<Message>)
    requires meta.Meta?
    ensures LoadLines([meta] + Entries(ms)) == (ms, Some(meta.lastConsolidated))
  {
    if ms == [] {
      LoadLast([], meta);
      assert [meta] + Entries(ms) == [] + [meta];
    } else {
      var most, last := ms[..|ms| - 1], ms[|ms| - 1];
      LoadEntries(meta, most);
      LoadLast([meta] + Entries(most), Entry(Serialize(last)));
      RecordRoundTrip(last);
      assert [meta] + Entries(ms) == [meta] + Entries(most) + [Entry(Serialize(last))];
      assert most + [last] == ms;
    }
    hide LoadLines, Serialize, Deserialize;
  }

  /** Loading a file in step restores what was saved: messages, cursor and counters. */
  lemma LoadRestoresSaved(s: SessionState)
    requires Synced(s) && s.disk.Some?
    ensures Loaded(s.key, s.disk.value) == s.(messages := s.messages[..s.lastSaved], needsFull := false)
    ensures Synced(Loaded(s.key, s.disk.value))
  {
    var file := s.disk.value;
    assert file == [file[0]] + Entries(s.messages[..s.lastSaved]);
    LoadEntries(file[0], s.messages[..s.lastSaved]);
    assert s.messages[..s.lastSaved][..s.lastSaved] == s.messages[..s.lastSaved];
  }

  /** Over any legal run from a new session, a final save and a load lose nothing: the
      incremental file reads back exactly as a full rewrite would. */
  lemma IncrementalRefinesFull(key: string, ops: seq<Op>)
    requires LegalRun(NewSession(key), ops)
    ensures var s := ApplyAll(NewSession(key), ops);
            var t := AfterSave(s);
            && t.disk.Some?
            && Loaded(s.key, t.disk.value).messages == s.messages
            && Loaded(s.key, t.disk.value).(disk := None) == Loaded(s.key, FullFile(s)).(disk := None)
  {
    RunSynced(NewSession(key), ops);
    var s := ApplyAll(NewSession(key), ops);
    SaveCompletes(s);
    LoadRestoresSaved(AfterSave(s));
    assert s.messages[..|s.messages|] == s.messages;
    LoadEntries(Meta(s.key, s.lastConsolidated, |s.messages|), s.messages);
  }

  function AddAll(s: SessionState, ms: seq<Message>): SessionState {
    s.(messages := s.messages + ms)
  }

  /** The failing family: after a rollback below what is saved, no later appends repair the
      file; what loads back is never the session, until a full rewrite. */
  lemma RollbackBelowSavedGoesStale(s: SessionState, to: nat, later: seq<Message>)
    requires Synced(s) && s.disk.Some? && !s.needsFull && to < s.lastSaved
    ensures var t := AfterSave(AddAll(RolledBack(s, to), later));
            Loaded(s.key, t.disk.value).messages == s.messages[..s.lastSaved] + later != t.messages
  {
    var r := AddAll(RolledBack(s, to), later);
    var file, kept := s.disk.value, s.messages[..s.lastSaved];
    assert r.lastSaved == to && r.messages[to..] == later;
    AppendedFile(file, kept, later);
    LoadEntries(file[0], kept + later);
    assert |kept + later| != |r.messages|;
  }

  lemma AppendedFile(file: seq<Line>, kept: seq<Message>, later: seq<Message>)
    requires |file| > 0 && file[1..] == Entries(kept)
    ensures file + Entries(later) == [file[0]] + Entries(kept + later)
    ensures (file + Entries(later))[1..] == Entries(kept + later)
  {
    var first, a, b := [file[0]], Entries(kept), Entries(later);
    EntriesAppend(kept, later);
    assert file == first + a;
    assert (first + a) + b == first + (a + b);
  }

  // ----- what each operation does, field by field

  /** Roles are written by name, and the fields of calls only when they hold something. */
  lemma RecordedFields(m: Message)
    ensures var r := Serialize(m);
            && r.content == m.content
            && r.role == (match m case User(_) => "user" case Assistant(_, _) => "assistant" case Tool(_, _) => "tool")
            && (r.toolCalls.Some? <==> m.Assistant? && m.calls != [])
            && (r.toolCallId.Some? <==> m.Tool? && m.call.id != "")
            && (r.name.Some? <==> m.Tool? && m.call.name != "")
  {
  }

  /** Reading: two roles are known, every other is the user's; absent fields are empty. */
  lemma ReadFields(r: Record)
    ensures r.role == "assistant" ==>
              Deserialize(r) == Assistant(r.content, match r.toolCalls case Some(calls) => calls case None => [])
    ensures r.role == "tool" ==>
              Deserialize(r) == Tool(r.content, Call(match r.toolCallId case Some(id) => id case None => "",
                                                     match r.name case Some(name) => name case None => ""))
    ensures r.role != "assistant" && r.role != "tool" ==> Deserialize(r) == User(r.content)
  {
    assert "tool"[0] != "assistant"[0];
  }

  /** A save writes one metadata line and every message when asked to rewrite, when there is no
      file, or when more was saved than there is; otherwise the unsaved messages go behind. */
  lemma SaveExact(s: SessionState)
    ensures var t, count := AfterSave(s), |s.messages|;
            && t.key == s.key && t.messages == s.messages && t.lastConsolidated == s.lastConsolidated
            && t.lastSaved == count && !t.needsFull
            && t.disk == Some(if s.needsFull || s.disk.None? || s.lastSaved > count
                              then [Meta(s.key, s.lastConsolidated, count)] + Entries(s.messages)
                              else s.disk.value + Entries(s.messages[s.lastSaved..]))
  {
  }

  /** With `window` messages past the cursor and the memory files written, the cursor moves to
      the end and the file is rewritten to say so; in every other case a cursor beyond the
      end is brought back to it, and nothing else changes. */
  lemma ConsolidatedExact(s: SessionState, window: nat, memoryOk: bool)
    ensures var t, count := Consolidated(s, window, memoryOk), |s.messages|;
            var cursor := if s.lastConsolidated > count then count else s.lastConsolidated;
            if memoryOk && count - cursor >= window then
              && t.key == s.key && t.messages == s.messages && !t.needsFull
              && t.lastConsolidated == t.lastSaved == count
              && t.disk == Some([Meta(s.key, count, count)] + Entries(s.messages))
            else
              t == s.(lastConsolidated := cursor)
  {
  }

  /** After a consolidation the next one waits for `window` more messages. */
  lemma ConsolidatedRests(s: SessionState, window: nat, later: seq<Message>, memoryOk: bool)
    requires |s.messages| >= s.lastConsolidated + window
    ensures var t := AddAll(Consolidated(s, window, true), later);
            if memoryOk && |later| >= window then
              Consolidated(t, window, memoryOk).lastConsolidated == |s.messages| + |later|
            else
              Consolidated(t, window, memoryOk) == t
  {
    ConsolidatedExact(s, window, true);
    var t := AddAll(Consolidated(s, window, true), later);
    ConsolidatedExact(t, window, memoryOk);
    hide Consolidated;
  }

  /** The messages that lie past the cursor. */
  function Pending(s: SessionState): nat {
    if s.lastConsolidated > |s.messages| then 0 else |s.messages| - s.lastConsolidated
  }

  function Added(ops: seq<Op>): nat {
    if ops == [] then 0 else Added(ops[..|ops| - 1]) + if ops[|ops| - 1].Add? then 1 else 0
  }

  /** How often an operation of the run moved the cursor to further messages. */
  function Archived(s: SessionState, ops: seq<Op>): nat {
    if ops == [] then 0
    else
      var before := ApplyAll(s, ops[..|ops| - 1]);
      var after := Apply(before, ops[|ops| - 1]);
      Archived(s, ops[..|ops| - 1]) + if Pending(after) < Pending(before) && !ops[|ops| - 1].RollbackTo? then 1 else 0
  }

  lemma {:induction false} ApplyLast(s: SessionState, ops: seq<Op>, op: Op)
    ensures ApplyAll(s, ops + [op]) == Apply(ApplyAll(s, ops), op)
    decreases |ops|
  {
    if ops == [] {
      assert [op][1..] == [];
    } else {
      ApplyLast(Apply(s, ops[0]), ops[1..], op);
      assert (ops + [op])[1..] == ops[1..] + [op];
    }
  }

  lemma OpMovesPending(s: SessionState, op: Op, window: nat)
    requires op.AutoConsolidate? ==> op.window == window
    ensures var p := Pending(Apply(s, op));
            if op.Add? then Pending(s) <= p <= Pending(s) + 1
            else p <= Pending(s) && (p < Pending(s) && !op.RollbackTo? ==> p + window <= Pending(s))
  {
  }

  /** Over any run, rollbacks included, messages are archived at most once per `window`
      messages added. */
  lemma {:induction false} ArchivesOncePerWindow(s: SessionState, ops: seq<Op>, window: nat)
    requires forall op | op in ops && op.AutoConsolidate? :: op.window == window
    ensures Archived(s, ops) * window + Pending(ApplyAll(s, ops)) <= Pending(s) + Added(ops)
    decreases |ops|
  {
    if ops != [] {
      hide Apply, ApplyAll, Pending;
      var most, op := ops[..|ops| - 1], ops[|ops| - 1];
      ArchivesOncePerWindow(s, most, window);
      assert ops == most + [op] && op in ops;
      ApplyLast(s, most, op);
      OpMovesPending(ApplyAll(s, most), op, window);
      var was, now := Pending(ApplyAll(s, most)), Pending(ApplyAll(s, ops));
      OneMoreOp(Archived(s, most), window, was, now, Pending(s) + Added(most), op.Add?, now < was && !op.RollbackTo?);
    }
  }

  lemma OneMoreOp(archived: nat, window: nat, was: nat, now: nat, budget: nat, add: bool, moved: bool)
    requires archived * window + was <= budget
    requires if add then now <= was + 1 && !moved else now <= was && (moved ==> now + window <= was)
    ensures (archived + if moved then 1 else 0) * window + now <= budget + if add then 1 else 0
  {
    assert (archived + 1) * window == archived * window + window;
  }

  /** A rollback keeps the first messages, brings back counters beyond them, and does not
      touch the file; to or past the end it does nothing. */
  lemma RollbackExact(s: SessionState, to: nat)
    ensures var t := RolledBack(s, to);
            if to >= |s.messages| then t == s
            else
              && t.messages == s.messages[..to]
              && t.lastSaved == (if s.lastSaved > to then to else s.lastSaved)
              && t.lastConsolidated == (if s.lastConsolidated > to then to else s.lastConsolidated)
              && t.key == s.key && t.needsFull == s.needsFull && t.disk == s.disk
  {
  }

  lemma {:induction false} LastCursor(lines: seq<Line>)
    ensures match LoadLines(lines).1
            case Some(c) => exists i :: 0 <= i < |lines| && lines[i].Meta? && lines[i].lastConsolidated == c
                                        && forall j | i < j < |lines| :: lines[j].Entry?
            case None => forall j | 0 <= j < |lines| :: lines[j].Entry?
  {
    if lines != [] {
      var most := lines[..|lines| - 1];
      LastCursor(most);
      if lines[|lines| - 1].Entry? && LoadLines(most).1.Some? {
        var i :| 0 <= i < |most| && most[i].Meta? && most[i].lastConsolidated == LoadLines(most).1.value
                 && forall j | i < j < |most| :: most[j].Entry?;
        assert lines[i] == most[i] && forall j | i < j < |lines| :: lines[j].Entry?;
      }
    }
  }

  /** Any file loads as a session that needs no rewrite: the last metadata line's cursor counts,
      and without one all its messages are taken as archived already. */
  lemma LoadedCursor(key: string, lines: seq<Line>)
    ensures var s := Loaded(key, lines);
            && s.key == key && s.lastSaved == |s.messages| && !s.needsFull && s.disk == Some(lines)
            && if forall j | 0 <= j < |lines| :: lines[j].Entry? then s.lastConsolidated == |s.messages|
               else exists i :: 0 <= i < |lines| && lines[i].Meta? && lines[i].lastConsolidated == s.lastConsolidated
                                && forall j | i < j < |lines| :: lines[j].Entry?
  {
    LastCursor(lines);
  }
}
