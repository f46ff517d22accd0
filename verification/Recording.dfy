/** What a protocol run leaves in a session and its file, with and without recording. */
module Recording {
  import opened Wrappers
  import opened History
  import opened SessionStore
  import opened Protocol
  import opened Runs
  import opened Text

  /** File and session in step; a task that leaves no record has nothing of its own saved. */
  predicate StoreInv(c: Cell) {
    c.session.Some? ==>
      && Synced(c.session.value)
      && (c.task.Some? && c.task.value.noRecord ==> c.session.value.lastSaved <= c.task.value.countBefore)
  }

  /** The session with the user's message added, as the consolidation check sees it. */
  function Asking(c: Cell, e: Event): SessionState
    requires e.Inbound?
  {
    WithMessage(SessionOr(c, e.Key()), User(Formatted(e.sender, e.content)))
  }

  /** A message that must leave no record, accepted when automatic consolidation is due:
      consolidating saves it to the file before the task has even started. */
  predicate SavesUnrecorded(cfg: Config, c: Cell, e: Event) {
    Accepts(c, e) && e.noRecord && e.memoryOk && Due(Asking(c, e), cfg.ConsolidationWindow())
  }

  lemma RecordedSynced(s: SessionState, m: Message, noRecord: bool)
    requires Synced(s)
    ensures Synced(Recorded(s, m, noRecord))
    ensures noRecord ==> Recorded(s, m, noRecord).lastSaved == s.lastSaved
  {
    ApplySyncedExact(s, Add(m));
    SaveCompletes(WithMessage(s, m));
  }

  lemma NewSessionSynced(c: Cell, key: string)
    requires StoreInv(c)
    ensures Synced(SessionOr(c, key))
  {
  }

  lemma InboundStore(cfg: Config, c: Cell, e: Event)
    requires CellInv(cfg, c) && StoreInv(c) && e.Inbound?
    ensures StoreInv(OnInbound(cfg, c, e).cell) <==> !SavesUnrecorded(cfg, c, e)
  {
    NewSessionSynced(c, e.Key());
    var s, m := SessionOr(c, e.Key()), User(Formatted(e.sender, e.content));
    ApplySyncedExact(s, Add(m));
    ApplySyncedExact(Asking(c, e), AutoConsolidate(cfg.ConsolidationWindow(), e.memoryOk));
    hide Synced, CellInv, FullFile, Window, Formatted;
  }

  lemma FinishStore(c: Cell)
    requires c.task.Some? && c.session.Some? && StoreInv(c)
    ensures StoreInv(Finish(c))
  {
    ApplySyncedExact(c.session.value, RollbackTo(c.task.value.countBefore));
    hide Synced;
  }

  lemma RecordedStore(c: Cell, m: Message)
    requires c.task.Some? && c.session.Some? && StoreInv(c)
    ensures StoreInv(c.(session := Some(Recorded(c.session.value, m, c.task.value.noRecord))))
  {
    RecordedSynced(c.session.value, m, c.task.value.noRecord);
    hide Synced, Recorded;
  }

  lemma LlmResultStore(cfg: Config, before: Cell, e: Event)
    requires CellInv(cfg, before) && StoreInv(before) && e.LlmResult? && before.llm > 0
    ensures StoreInv(OnLlmResult(cfg, before, e).cell)
  {
    var c := before.(llm := before.llm - 1);
    var t := c.task.value;
    var text := if e.error.Some? then SORRY + e.error.value else ReplyText(t, e);
    var said := c.(session := Some(Recorded(c.session.value, Assistant(text, []), t.noRecord)));
    RecordedStore(c, Assistant(text, []));
    FinishStore(said);
    FinishStore(c);
    RecordedStore(c, Assistant(e.cleaned, ResolveAll(cfg, e.calls)));
    hide Synced, Recorded, CellInv, Finish, ResolveAll, CallsOf, ReplyText;
  }

  lemma ToolResultStore(cfg: Config, c: Cell, e: Event)
    requires CellInv(cfg, c) && StoreInv(c) && e.ToolResult? && e.call in c.tools
    ensures StoreInv(OnToolResult(cfg, c, e).cell)
  {
    var d := Taken(c, e);
    RecordedStore(c, Tool(e.outcome, e.call));
    assert StoreInv(d);
    FinishStore(d);
    hide Synced, Recorded, CellInv, Finish, Window;
  }

  /** Every step keeps session and file in step, except exactly the acceptance of an
      unrecorded message while consolidation is due. */
  lemma StepStoreExact(cfg: Config, c: Cell, e: Event)
    requires CellInv(cfg, c) && StoreInv(c) && Enabled(c, e)
    ensures StoreInv(CellStep(cfg, c, e).cell) <==> !SavesUnrecorded(cfg, c, e)
  {
    hide CellInv, StoreInv, OnInbound, OnLlmResult, OnToolResult;
    match e {
      case Inbound(_, _, _, _, _, _, _) => InboundStore(cfg, c, e);
      case LlmResult(_, _, _, _, _, _) => LlmResultStore(cfg, c, e);
      case ToolResult(_, _, _) => ToolResultStore(cfg, c, e);
    }
  }

  // ----- a task that leaves no record

  /** The events of one session from just after a task was accepted until it is gone. */
  predicate Serves(cfg: Config, c: Cell, run: seq<Event>)
    decreases |run|
  {
    && run != [] && Enabled(c, run[0])
    && var d := CellStep(cfg, c, run[0]).cell;
       if |run| == 1 then d.task.None? else d.task.Some? && Serves(cfg, d, run[1..])
  }

  function ServedBy(cfg: Config, c: Cell, run: seq<Event>): Cell
    requires Serves(cfg, c, run)
    decreases |run|
  {
    var d := CellStep(cfg, c, run[0]).cell;
    if |run| == 1 then d else ServedBy(cfg, d, run[1..])
  }

  /** Same file and counters as `base`, more than `n` messages, the first `n` of base's. */
  predicate Extends(s: SessionState, base: SessionState, n: nat) {
    && s == base.(messages := s.messages)
    && |s.messages| > n && |base.messages| > n && s.messages[..n] == base.messages[..n]
  }

  predicate Unrecorded(c: Cell, base: SessionState, n: nat) {
    && c.task.Some? && c.task.value.noRecord && c.task.value.countBefore == n
    && c.session.Some? && Extends(c.session.value, base, n)
  }

  lemma RecordedExtends(s: SessionState, m: Message, base: SessionState, n: nat)
    requires Extends(s, base, n)
    ensures Extends(Recorded(s, m, true), base, n)
  {
    assert (s.messages + [m])[..n] == s.messages[..n];
  }

  lemma FinishUnrecorded(c: Cell, base: SessionState, n: nat)
    requires Unrecorded(c, base, n)
    ensures Finish(c).task == None && Finish(c).session == Some(RolledBack(base, n))
  {
  }

  /** Each step of an unrecorded task keeps the session's first messages, file and counters,
      and its last step rolls everything else back. */
  predicate StaysUnrecorded(d: Cell, base: SessionState, n: nat) {
    if d.task.Some? then Unrecorded(d, base, n) else d.session == Some(RolledBack(base, n))
  }

  lemma LlmResultUnrecorded(cfg: Config, before: Cell, e: Event, base: SessionState, n: nat)
    requires e.LlmResult? && before.llm > 0 && Unrecorded(before, base, n)
    ensures StaysUnrecorded(OnLlmResult(cfg, before, e).cell, base, n)
  {
    var c := before.(llm := before.llm - 1);
    var t := c.task.value;
    var text := if e.error.Some? then SORRY + e.error.value else ReplyText(t, e);
    RecordedExtends(c.session.value, Assistant(text, []), base, n);
    RecordedExtends(c.session.value, Assistant(e.cleaned, ResolveAll(cfg, e.calls)), base, n);
    FinishUnrecorded(c, base, n);
    FinishUnrecorded(c.(session := Some(Recorded(c.session.value, Assistant(text, []), t.noRecord))), base, n);
    hide Recorded, RolledBack, Finish, Extends, ResolveAll, CallsOf, ReplyText;
  }

  lemma ToolResultUnrecorded(cfg: Config, c: Cell, e: Event, base: SessionState, n: nat)
    requires e.ToolResult? && e.call in c.tools && Unrecorded(c, base, n)
    ensures StaysUnrecorded(OnToolResult(cfg, c, e).cell, base, n)
  {
    RecordedExtends(c.session.value, Tool(e.outcome, e.call), base, n);
    FinishUnrecorded(Taken(c, e), base, n);
    hide Recorded, RolledBack, Finish, Extends, Window;
  }

  lemma StepUnrecorded(cfg: Config, c: Cell, e: Event, base: SessionState, n: nat)
    requires CellInv(cfg, c) && Enabled(c, e) && Unrecorded(c, base, n)
    ensures StaysUnrecorded(CellStep(cfg, c, e).cell, base, n)
  {
    match e {
      case Inbound(_, _, _, _, _, _, _) =>
        assert CellStep(cfg, c, e).cell == c;
      case LlmResult(_, _, _, _, _, _) => LlmResultUnrecorded(cfg, c, e, base, n);
      case ToolResult(_, _, _) => ToolResultUnrecorded(cfg, c, e, base, n);
    }
    hide OnLlmResult, OnToolResult, RolledBack, Extends, Closed, Awaits;
  }

  lemma {:induction false} ServedUnrecorded(cfg: Config, c: Cell, run: seq<Event>, base: SessionState, n: nat)
    requires CellInv(cfg, c) && Serves(cfg, c, run) && Unrecorded(c, base, n)
    ensures ServedBy(cfg, c, run).session == Some(RolledBack(base, n))
    decreases |run|
  {
    hide CellInv, Unrecorded, RolledBack, CellStep;
    StepUnrecorded(cfg, c, run[0], base, n);
    CellStepKeepsInv(cfg, c, run[0]);
    var d := CellStep(cfg, c, run[0]).cell;
    if |run| > 1 {
      ServedUnrecorded(cfg, d, run[1..], base, n);
    }
  }

  /** The session at acceptance, consolidated, then rolled back past the user's message. */
  lemma RolledBackExact(s: SessionState, m: Message, window: nat, memoryOk: bool)
    requires Synced(s)
    ensures var asked := WithMessage(s, m);
            var end := RolledBack(Consolidated(asked, window, memoryOk), |s.messages|);
            && end.messages == s.messages
            && (if Due(asked, window) && memoryOk then !Synced(end) else end == s)
            && end.lastSaved <= |end.messages| && end.lastConsolidated <= |end.messages|
  {
    var asked := WithMessage(s, m);
    var base := Consolidated(asked, window, memoryOk);
    assert base.messages[..|s.messages|] == s.messages;
    ApplySyncedExact(s, Add(m));
    ApplySyncedExact(asked, AutoConsolidate(window, memoryOk));
    ApplySyncedExact(base, RollbackTo(|s.messages|));
    if Due(asked, window) && memoryOk {
      assert base.lastSaved == |asked.messages|;
    } else {
      assert base == asked;
    }
  }

  /** However many rounds it took, and whatever state the file is in, a task that leaves no
      record leaves the messages as they were, with both counters at most their count. */
  lemma NoRecordKeepsMessages(cfg: Config, c: Cell, e: Event, run: seq<Event>)
    requires CellInv(cfg, c) && Accepts(c, e) && e.noRecord
    requires Serves(cfg, CellStep(cfg, c, e).cell, run)
    ensures var before, end := SessionOr(c, e.Key()), ServedBy(cfg, CellStep(cfg, c, e).cell, run).session;
            && end == Some(RolledBack(Consolidated(Asking(c, e), cfg.ConsolidationWindow(), e.memoryOk), |before.messages|))
            && end.value.messages == before.messages
            && end.value.lastSaved <= |end.value.messages| && end.value.lastConsolidated <= |end.value.messages|
  {
    var s, m := SessionOr(c, e.Key()), User(Formatted(e.sender, e.content));
    var base, n := Consolidated(WithMessage(s, m), cfg.ConsolidationWindow(), e.memoryOk), |s.messages|;
    var d := CellStep(cfg, c, e).cell;
    SavesKeepMessages(WithMessage(s, m), m, true, cfg.ConsolidationWindow(), e.memoryOk);
    assert d.session == Some(base) && d.task == Some(NewTask(e, n));
    assert Unrecorded(d, base, n);
    CellStepKeepsInv(cfg, c, e);
    assert base.messages[..n] == s.messages;
    hide CellStep, CellInv, Consolidated, Unrecorded, Serves, ServedBy;
    ServedUnrecorded(cfg, d, run, base, n);
  }

  /** Beyond the messages: with session and file in step before, the whole session and its
      file are as they were exactly unless the acceptance consolidated. */
  lemma NoRecordLeavesNoTrace(cfg: Config, c: Cell, e: Event, run: seq<Event>)
    requires CellInv(cfg, c) && StoreInv(c) && Accepts(c, e) && e.noRecord
    requires Serves(cfg, CellStep(cfg, c, e).cell, run)
    ensures var before, end := SessionOr(c, e.Key()), ServedBy(cfg, CellStep(cfg, c, e).cell, run).session;
            && end.Some?
            && (end.value == before <==> !SavesUnrecorded(cfg, c, e))
            && (Synced(end.value) <==> !SavesUnrecorded(cfg, c, e))
  {
    NoRecordKeepsMessages(cfg, c, e, run);
    NewSessionSynced(c, e.Key());
    hide CellStep, CellInv, Synced, Consolidated, RolledBack, Serves, ServedBy, Formatted;
    RolledBackExact(SessionOr(c, e.Key()), User(Formatted(e.sender, e.content)), cfg.ConsolidationWindow(), e.memoryOk);
  }

  // ----- over whole runs

  /** The events of one session, in order. */
  function Own(run: seq<Event>, key: string): seq<Event> {
    if run == [] then []
    else (if run[0].Key() == key && !Ignored(run[0]) then [run[0]] else []) + Own(run[1..], key)
  }

  predicate IsCellRun(cfg: Config, c: Cell, run: seq<Event>)
    decreases |run|
  {
    run == [] || (Enabled(c, run[0]) && IsCellRun(cfg, CellStep(cfg, c, run[0]).cell, run[1..]))
  }

  function CellAfter(cfg: Config, c: Cell, run: seq<Event>): Cell
    requires IsCellRun(cfg, c, run)
    decreases |run|
  {
    if run == [] then c else CellAfter(cfg, CellStep(cfg, c, run[0]).cell, run[1..])
  }

  /** A run of the world, seen from one session, is the run of that session's own events. */
  lemma {:induction false} RunProjects(cfg: Config, w: World, run: seq<Event>, key: string)
    requires IsRun(cfg, w, run)
    ensures IsCellRun(cfg, CellOf(w, key), Own(run, key))
    ensures CellOf(After(cfg, w, run), key) == CellAfter(cfg, CellOf(w, key), Own(run, key))
    decreases |run|
  {
    hide CellStep;
    if run != [] {
      var e, next := run[0], Step(cfg, w, run[0]);
      RunProjects(cfg, next, run[1..], key);
      if e.Key() != key {
        OtherSessionsUntouched(cfg, w, e, key);
        assert [] + Own(run[1..], key) == Own(run[1..], key);
      } else if Ignored(e) {
        assert [] + Own(run[1..], key) == Own(run[1..], key);
      } else {
        assert Own(run, key)[1..] == Own(run[1..], key);
      }
    }
  }

  lemma {:induction false} ServingEnds(cfg: Config, c: Cell, run: seq<Event>)
    requires Serves(cfg, c, run) && IsCellRun(cfg, c, run)
    ensures CellAfter(cfg, c, run) == ServedBy(cfg, c, run)
    decreases |run|
  {
    hide CellStep;
    if |run| > 1 {
      ServingEnds(cfg, CellStep(cfg, c, run[0]).cell, run[1..]);
    }
  }

  /** In any run from nothing, other sessions between: once an unrecorded task is gone, its
      session's messages are what they were before its user message. */
  lemma UnrecordedInEveryRun(cfg: Config, before: seq<Event>, e: Event, later: seq<Event>)
    requires IsRun(cfg, START, before)
    requires var w := After(cfg, START, before);
             && CanStep(w, e) && Accepts(CellOf(w, e.Key()), e) && e.noRecord
             && IsRun(cfg, Step(cfg, w, e), later)
             && Serves(cfg, CellOf(Step(cfg, w, e), e.Key()), Own(later, e.Key()))
    ensures var w := After(cfg, START, before);
            var end := CellOf(After(cfg, Step(cfg, w, e), later), e.Key()).session;
            && end.Some? && end.value.messages == SessionOr(CellOf(w, e.Key()), e.Key()).messages
            && end.value.lastSaved <= |end.value.messages| && end.value.lastConsolidated <= |end.value.messages|
  {
    hide CellStep, Serves, ServedBy, IsCellRun, CellAfter, Own, Inv, IsRun, After, RolledBack, Consolidated, CellInv;
    var w := After(cfg, START, before);
    var c := CellOf(w, e.Key());
    EveryRunIsSafe(cfg, before);
    CellOfInv(cfg, w, e.Key());
    var d := CellStep(cfg, c, e).cell;
    assert CellOf(Step(cfg, w, e), e.Key()) == d;
    RunProjects(cfg, Step(cfg, w, e), later, e.Key());
    ServingEnds(cfg, d, Own(later, e.Key()));
    NoRecordKeepsMessages(cfg, c, e, Own(later, e.Key()));
  }

  ghost predicate AllInStep(w: World) {
    forall key | key in w.cells :: StoreInv(w.cells[key])
  }

  /** Session and file in step at every point of a run, for every session. */
  ghost predicate InStepThroughout(cfg: Config, w: World, run: seq<Event>)
    requires IsRun(cfg, w, run)
    decreases |run|
  {
    AllInStep(w) && (run != [] ==> InStepThroughout(cfg, Step(cfg, w, run[0]), run[1..]))
  }

  /** No event of the run is an unrecorded message accepted while consolidation is due. */
  ghost predicate NeverSavesUnrecorded(cfg: Config, w: World, run: seq<Event>)
    requires IsRun(cfg, w, run)
    decreases |run|
  {
    run != [] ==>
      && !SavesUnrecorded(cfg, CellOf(w, run[0].Key()), run[0])
      && NeverSavesUnrecorded(cfg, Step(cfg, w, run[0]), run[1..])
  }

  lemma InStepAt(w: World, key: string)
    requires AllInStep(w)
    ensures StoreInv(CellOf(w, key))
  {
  }

  lemma PutInStep(w: World, e: Event, f: Effect)
    requires AllInStep(w)
    ensures AllInStep(Put(w, e, f)) <==> StoreInv(f.cell)
  {
    hide StoreInv, Accepts;
    var w' := Put(w, e, f);
    assert e.Key() in w'.cells && w'.cells[e.Key()] == f.cell;
  }

  lemma WorldStepStoreExact(cfg: Config, w: World, e: Event)
    requires Inv(cfg, w) && AllInStep(w) && CanStep(w, e)
    ensures AllInStep(Step(cfg, w, e)) <==> !SavesUnrecorded(cfg, CellOf(w, e.Key()), e)
  {
    hide CellStep, CellInv, Inv, StoreInv, AllInStep, Due, CellOf, Put;
    var c := CellOf(w, e.Key());
    CellOfInv(cfg, w, e.Key());
    InStepAt(w, e.Key());
    StepStoreExact(cfg, c, e);
    PutInStep(w, e, CellStep(cfg, c, e));
  }

  /** Sessions and files are in step at every point of a run if and only if the run never
      accepts an unrecorded message while consolidation is due. */
  lemma {:induction false} RunInStepExact(cfg: Config, w: World, run: seq<Event>)
    requires Inv(cfg, w) && AllInStep(w) && IsRun(cfg, w, run)
    ensures InStepThroughout(cfg, w, run) <==> NeverSavesUnrecorded(cfg, w, run)
    decreases |run|
  {
    hide Inv, AllInStep, SavesUnrecorded, Step;
    if run != [] {
      WorldStepStoreExact(cfg, w, run[0]);
      StepKeepsInv(cfg, w, run[0]);
      if AllInStep(Step(cfg, w, run[0])) {
        RunInStepExact(cfg, Step(cfg, w, run[0]), run[1..]);
      }
    }
  }

  /** The failing family is reachable: a first message that leaves no record, with a window of
      one. Its task rolls back, and its file still holds the message. */
  lemma SavedUnrecordedExample(cfg: Config) returns (e: Event, run: seq<Event>)
    requires cfg.ConsolidationWindow() == 1
    ensures IsRun(cfg, START, [e]) && SavesUnrecorded(cfg, EMPTY, e)
    ensures Serves(cfg, CellStep(cfg, EMPTY, e).cell, run)
    ensures var end := ServedBy(cfg, CellStep(cfg, EMPTY, e).cell, run).session;
            end.Some? && end.value.messages == [] && !Synced(end.value)
  {
    e := Inbound("cli", "1", "hello", "", true, "t", true);
    assert SkipSpace(e.content)[0] == 'h';
    var d := CellStep(cfg, EMPTY, e).cell;
    var answer := LlmResult(e.Key(), None, "hi", "", [], None);
    run := [answer];
    assert d.task.Some? && d.llm == 1;
    assert IsRun(cfg, START, [e]) by {
      assert CanStep(START, e);
      assert [e][1..] == [];
    }
    assert CellStep(cfg, d, answer).cell.task.None?;
    hide CellStep, ServedBy, Synced;
    NoRecordKeepsMessages(cfg, EMPTY, e, run);
    NoRecordLeavesNoTrace(cfg, EMPTY, e, run);
  }
}
