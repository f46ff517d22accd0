/** Whole runs of the agent loop: many sessions, any order of arrivals. */
module Runs {
  import opened Text
  import opened Wrappers
  import opened History
  import opened SessionStore
  import opened Protocol

  // ----- accounting for one step of one session

  function Replies(out: seq<Outbound>, id: string): nat {
    if out == [] then 0
    else Replies(out[..|out| - 1], id) + if out[|out| - 1].kind == Final(id) then 1 else 0
  }

  function Requests(prompts: seq<Prompt>, id: string): nat {
    if prompts == [] then 0
    else Requests(prompts[..|prompts| - 1], id) + if prompts[|prompts| - 1].taskId == id then 1 else 0
  }

  lemma {:induction false} RepliesAppend(a: seq<Outbound>, b: seq<Outbound>, id: string)
    ensures Replies(a + b, id) == Replies(a, id) + Replies(b, id)
  {
    if b == [] {
      assert a + b == a;
    } else {
      assert (a + b)[..|a + b| - 1] == a + b[..|b| - 1];
      RepliesAppend(a, b[..|b| - 1], id);
    }
  }

  lemma {:induction false} RequestsAppend(a: seq<Prompt>, b: seq<Prompt>, id: string)
    ensures Requests(a + b, id) == Requests(a, id) + Requests(b, id)
  {
    if b == [] {
      assert a + b == a;
    } else {
      assert (a + b)[..|a + b| - 1] == a + b[..|b| - 1];
      RequestsAppend(a, b[..|b| - 1], id);
    }
  }

  lemma OneReply(o: Outbound, id: string)
    ensures Replies([o], id) == if o.kind == Final(id) then 1 else 0
  {
    assert Replies([], id) == 0 && [o][..0] == [];
  }

  lemma OneRequest(p: Prompt, id: string)
    ensures Requests([p], id) == if p.taskId == id then 1 else 0
  {
    assert Requests([], id) == 0 && [p][..0] == [];
  }

  /** The task an event leaves the session with, and what it sent meanwhile: a new task
      starts at turn one with one request; a running one makes one request per turn it
      gains; one that ends sends its one final reply; nothing else is ever sent for it. */
  ghost predicate Accounted(c: Cell, e: Event, f: Effect) {
    if f.cell.task.Some? then
      (forall id :: Replies(f.out, id) == 0) && AccountedRunning(c, e, f.cell.task.value, f.prompts)
    else
      && (forall id :: Requests(f.prompts, id) == 0)
      && !Accepts(c, e)
      && forall id :: Replies(f.out, id) == if c.task.Some? && id == c.task.value.id then 1 else 0
  }

  ghost predicate AccountedRunning(c: Cell, e: Event, after: Task, prompts: seq<Prompt>) {
    if c.task.Some? then
      && !Accepts(c, e) && after.id == c.task.value.id && after.key == c.task.value.key && c.task.value.turn <= after.turn
      && forall id :: Requests(prompts, id) == if id == after.id then after.turn - c.task.value.turn else 0
    else
      && Accepts(c, e) && after.id == e.taskId && after.key == e.Key() && after.turn == 1
      && forall id :: Requests(prompts, id) == if id == e.taskId then 1 else 0
  }

  lemma ShortTraces(f: Effect, id: string)
    requires |f.out| <= 1 && |f.prompts| <= 1
    ensures Replies(f.out, id) == if f.out != [] && f.out[0].kind == Final(id) then 1 else 0
    ensures Requests(f.prompts, id) == if f.prompts != [] && f.prompts[0].taskId == id then 1 else 0
  {
    if f.out != [] {
      OneReply(f.out[0], id);
      assert f.out == [f.out[0]];
    }
    if f.prompts != [] {
      OneRequest(f.prompts[0], id);
      assert f.prompts == [f.prompts[0]];
    }
  }

  /** The five shapes a step can have. */
  predicate Shaped(c: Cell, e: Event, f: Effect) {
    && |f.out| <= 1 && |f.prompts| <= 1
    && if Accepts(c, e) then
         c.task.None? && f.cell.task.Some? && f.out == [] && |f.prompts| == 1
         && var t := f.cell.task.value;
            t.id == e.taskId == f.prompts[0].taskId && t.key == e.Key() && t.turn == 1
       else if c.task.None? then
         f.cell.task.None? && f.out == [] && f.prompts == []
       else if f.cell.task.None? then
         |f.out| == 1 && f.out[0].kind == Final(c.task.value.id) && f.prompts == []
       else
         var t, t' := c.task.value, f.cell.task.value;
         && t'.id == t.id && t'.key == t.key && t'.turn == t.turn + |f.prompts|
         && (f.out != [] ==> !f.out[0].kind.Final?)
         && (f.prompts != [] ==> f.prompts[0].taskId == t.id)
  }

  lemma InboundShaped(cfg: Config, c: Cell, e: Event)
    requires CellInv(cfg, c) && e.Inbound?
    ensures Shaped(c, e, OnInbound(cfg, c, e))
  {
    hide Consolidated, Window, Closed, Awaits, Formatted;
  }

  lemma LlmResultShaped(cfg: Config, c: Cell, e: Event)
    requires CellInv(cfg, c) && e.LlmResult? && c.llm > 0
    ensures Shaped(c, e, OnLlmResult(cfg, c, e))
  {
    hide Recorded, RolledBack, Closed, Awaits, CallsOf, ResolveAll, ReplyText;
  }

  lemma ToolResultShaped(cfg: Config, c: Cell, e: Event)
    requires CellInv(cfg, c) && e.ToolResult? && e.call in c.tools
    ensures Shaped(c, e, OnToolResult(cfg, c, e))
  {
    hide Recorded, RolledBack, Window, Closed, Awaits;
  }

  lemma StepShaped(cfg: Config, c: Cell, e: Event)
    requires CellInv(cfg, c) && Enabled(c, e)
    ensures Shaped(c, e, CellStep(cfg, c, e))
  {
    hide Shaped, CellInv, OnInbound, OnLlmResult, OnToolResult;
    match e {
      case Inbound(_, _, _, _, _, _, _) => InboundShaped(cfg, c, e);
      case LlmResult(_, _, _, _, _, _) => LlmResultShaped(cfg, c, e);
      case ToolResult(_, _, _) => ToolResultShaped(cfg, c, e);
    }
  }

  lemma ShapedAccounted(c: Cell, e: Event, f: Effect)
    requires Shaped(c, e, f)
    ensures Accounted(c, e, f)
  {
    forall id
      ensures Replies(f.out, id) == if f.out != [] && f.out[0].kind == Final(id) then 1 else 0
      ensures Requests(f.prompts, id) == if f.prompts != [] && f.prompts[0].taskId == id then 1 else 0
    {
      ShortTraces(f, id);
    }
  }

  lemma StepAccounted(cfg: Config, c: Cell, e: Event)
    requires CellInv(cfg, c) && Enabled(c, e)
    ensures Accounted(c, e, CellStep(cfg, c, e))
  {
    StepShaped(cfg, c, e);
    hide *;
    ShapedAccounted(c, e, CellStep(cfg, c, e));
  }

  /** A busy session turns further messages away without being disturbed. */
  lemma BusyTurnsAway(cfg: Config, c: Cell, e: Event)
    requires CellInv(cfg, c) && c.task.Some? && e.Inbound?
    ensures CellStep(cfg, c, e).cell == c && CellStep(cfg, c, e).prompts == []
  {
  }

  // ----- progress

  function TurnsLeft(cfg: Config, c: Cell): nat
    requires CellInv(cfg, c)
  {
    if c.task.None? then 0 else cfg.MaxTurns() - c.task.value.turn
  }

  function Phase(c: Cell): nat {
    if c.task.None? then 0 else if c.task.value.state == WaitingLlm then 2 else 1
  }

  /** Ended, or lower in (turns left, phase, results to come), in that order of significance. */
  predicate Lower(cfg: Config, d: Cell, c: Cell)
    requires CellInv(cfg, c) && CellInv(cfg, d)
  {
    || d.task.None?
    || TurnsLeft(cfg, d) < TurnsLeft(cfg, c)
    || (TurnsLeft(cfg, d) == TurnsLeft(cfg, c) && Phase(d) < Phase(c))
    || (TurnsLeft(cfg, d) == TurnsLeft(cfg, c) && Phase(d) == Phase(c) && |d.tools| < |c.tools|)
  }

  lemma LlmResultLowers(cfg: Config, c: Cell, e: Event)
    requires CellInv(cfg, c) && c.task.Some? && e.LlmResult? && c.llm > 0
    requires CellInv(cfg, OnLlmResult(cfg, c, e).cell)
    ensures Lower(cfg, OnLlmResult(cfg, c, e).cell, c)
  {
    hide Recorded, RolledBack, Closed, Awaits, CallsOf, ResolveAll, ReplyText;
  }

  lemma ToolResultLowers(cfg: Config, c: Cell, e: Event)
    requires CellInv(cfg, c) && c.task.Some? && e.ToolResult? && e.call in c.tools
    requires CellInv(cfg, OnToolResult(cfg, c, e).cell)
    ensures Lower(cfg, OnToolResult(cfg, c, e).cell, c)
  {
    hide Recorded, RolledBack, Window, Closed, Awaits;
    OneFewer(c.tools, e.call);
  }

  /** Every result consumed by a running task makes progress. */
  lemma ResultMakesProgress(cfg: Config, c: Cell, e: Event)
    requires CellInv(cfg, c) && c.task.Some? && Enabled(c, e) && !e.Inbound?
    ensures var d := CellStep(cfg, c, e).cell; CellInv(cfg, d) && Lower(cfg, d, c)
  {
    CellStepKeepsInv(cfg, c, e);
    hide CellInv, Lower, OnLlmResult, OnToolResult;
    if e.ToolResult? {
      ToolResultLowers(cfg, c, e);
    } else {
      LlmResultLowers(cfg, c, e);
    }
  }

  /** An environment that answers whatever a running task is waiting for, in any way. */
  ghost predicate AnswersAll(answer: Cell -> Event) {
    forall c: Cell {:trigger answer(c)} ::
      c.llm > 0 || c.tools != multiset{} ==> !answer(c).Inbound? && Enabled(c, answer(c))
  }

  /** Running one session until its task is gone, under any answering environment. */
  ghost function Drain(cfg: Config, c: Cell, answer: Cell -> Event): Effect
    requires CellInv(cfg, c) && AnswersAll(answer)
    decreases Phase(c) > 0, TurnsLeft(cfg, c), Phase(c), |c.tools|
  {
    if c.task.None? then Effect(c, [], [])
    else
      ResultMakesProgress(cfg, c, answer(c));
      var f := CellStep(cfg, c, answer(c));
      var g := Drain(cfg, f.cell, answer);
      Effect(g.cell, f.out + g.out, f.prompts + g.prompts)
  }

  /** Every accepted message is resolved: whatever the LLM and the tools answer, the task
      ends, with one final reply, a closed history and at most the allowed LLM requests. */
  lemma {:induction false} EveryTaskResolves(cfg: Config, c: Cell, answer: Cell -> Event)
    requires CellInv(cfg, c) && AnswersAll(answer) && c.task.Some?
    ensures var g := Drain(cfg, c, answer);
            && g.cell.task == None && CellInv(cfg, g.cell)
            && Replies(g.out, c.task.value.id) == 1
            && c.task.value.turn + Requests(g.prompts, c.task.value.id) <= cfg.MaxTurns()
    decreases TurnsLeft(cfg, c), Phase(c), |c.tools|
  {
    hide CellStep;
    var id := c.task.value.id;
    ResultMakesProgress(cfg, c, answer(c));
    StepAccounted(cfg, c, answer(c));
    var f := CellStep(cfg, c, answer(c));
    var g := Drain(cfg, f.cell, answer);
    RepliesAppend(f.out, g.out, id);
    RequestsAppend(f.prompts, g.prompts, id);
    if f.cell.task.Some? {
      EveryTaskResolves(cfg, f.cell, answer);
    }
  }

  // ----- what the provider is given

  /** A closed window, or one that the cut left inside a block at an empty call id. */
  predicate WindowOk(w: seq<Message>) {
    Closed(w) || (w != [] && w[0].Tool? && w[0].call.id == "")
  }

  lemma WaitingIsClosed(cfg: Config, c: Cell)
    requires CellInv(cfg, c) && c.task.Some? && c.task.value.state == WaitingLlm
    ensures c.session.Some? && Closed(c.session.value.messages)
  {
  }

  lemma CarriedIsGood(cfg: Config, f: Effect)
    requires CellInv(cfg, f.cell) && CarriesWindow(cfg, f)
    ensures forall p | p in f.prompts ::
              f.cell.session.Some? && GoodWindow(p.window, f.cell.session.value.messages, cfg.ContextWindow())
  {
    hide CellInv, Window, GoodWindow, Closed;
    if f.prompts != [] {
      WaitingIsClosed(cfg, f.cell);
      WindowIsGood(f.cell.session.value.messages, cfg.ContextWindow());
      assert f.prompts == [f.prompts[0]];
    }
  }

  /** A request carries the window of the history as it then is, a suffix of it. */
  lemma RequestCarriesWindow(cfg: Config, c: Cell, e: Event)
    requires CellInv(cfg, c) && Enabled(c, e)
    ensures var f := CellStep(cfg, c, e);
            forall p | p in f.prompts ::
              f.cell.session.Some? && GoodWindow(p.window, f.cell.session.value.messages, cfg.ContextWindow())
  {
    CellStepKeepsInv(cfg, c, e);
    RequestIsWindow(cfg, c, e);
    hide *;
    CarriedIsGood(cfg, CellStep(cfg, c, e));
  }

  /** The cut suffix of a closed history, closed exactly when the cut is repairable. */
  predicate GoodWindow(w: seq<Message>, h: seq<Message>, max: nat) {
    && w == Window(h, max) && WindowOk(w)
    && |w| <= |h| && IsSuffix(w, h, |h| - |w|)
    && (Closed(w) <==> Repairable(h, max))
  }

  lemma WindowIsGood(h: seq<Message>, max: nat)
    requires Closed(h) && max > 0
    ensures GoodWindow(Window(h, max), h, max)
  {
    WindowExact(h, max);
    var w, start := Window(h, max), |h| - |Window(h, max)|;
    assert w == h[start..];
    hide Window, Closed, Repairable;
  }

  predicate CarriesWindow(cfg: Config, f: Effect) {
    f.prompts != [] ==>
      && |f.prompts| == 1 && f.cell.task.Some? && f.cell.task.value.state == WaitingLlm && f.cell.session.Some?
      && f.prompts[0].window == Window(f.cell.session.value.messages, cfg.ContextWindow())
  }

  lemma InboundCarriesWindow(cfg: Config, c: Cell, e: Event)
    requires e.Inbound?
    ensures CarriesWindow(cfg, OnInbound(cfg, c, e))
  {
    hide Consolidated, Window, Formatted, IsCommand;
  }

  lemma LlmResultCarriesNothing(cfg: Config, c: Cell, e: Event)
    requires e.LlmResult? && c.llm > 0
    ensures OnLlmResult(cfg, c, e).prompts == []
  {
    hide Recorded, Finish, CallsOf, ResolveAll, ReplyText;
  }

  lemma ToolResultCarriesWindow(cfg: Config, c: Cell, e: Event)
    requires e.ToolResult? && e.call in c.tools
    ensures CarriesWindow(cfg, OnToolResult(cfg, c, e))
  {
    hide Recorded, Finish, Window;
  }

  lemma RequestIsWindow(cfg: Config, c: Cell, e: Event)
    requires Enabled(c, e)
    ensures CarriesWindow(cfg, CellStep(cfg, c, e))
  {
    hide CarriesWindow, OnInbound, OnLlmResult, OnToolResult;
    match e {
      case Inbound(_, _, _, _, _, _, _) => InboundCarriesWindow(cfg, c, e);
      case LlmResult(_, _, _, _, _, _) =>
        LlmResultCarriesNothing(cfg, c, e);
        NothingCarried(cfg, OnLlmResult(cfg, c, e));
      case ToolResult(_, _, _) => ToolResultCarriesWindow(cfg, c, e);
    }
  }

  lemma NothingCarried(cfg: Config, f: Effect)
    requires f.prompts == []
    ensures CarriesWindow(cfg, f)
  {
  }

  predicate NamedHistory(h: seq<Message>) {
    forall i | 0 <= i < |h| && h[i].Tool? :: h[i].call.id != ""
  }

  predicate Named(c: Cell) {
    && (forall x | x in c.tools :: x.id != "")
    && (c.session.Some? ==> NamedHistory(c.session.value.messages))
  }

  predicate NamesCalls(e: Event) {
    e.LlmResult? ==> forall i | 0 <= i < |e.calls| :: e.calls[i].id != ""
  }

  lemma {:induction false} CallsNamed(calls: seq<ToolCall>)
    requires forall i | 0 <= i < |calls| :: calls[i].id != ""
    ensures forall x | x in CallsOf(calls) :: x.id != ""
  {
    if calls != [] {
      CallsNamed(calls[1..]);
    }
  }

  lemma RecordKeepsNames(c: Cell, m: Message)
    requires c.task.Some? && c.session.Some? && Named(c) && (m.Tool? ==> m.call.id != "")
    ensures Named(c.(session := Some(Recorded(c.session.value, m, c.task.value.noRecord))))
  {
    SavesKeepMessages(c.session.value, m, c.task.value.noRecord, 0, false);
  }

  lemma InboundKeepsNames(cfg: Config, c: Cell, e: Event)
    requires e.Inbound? && Named(c)
    ensures Named(OnInbound(cfg, c, e).cell)
  {
    var s, m := SessionOr(c, e.Key()), User(Formatted(e.sender, e.content));
    SavesKeepMessages(WithMessage(s, m), m, true, cfg.ConsolidationWindow(), e.memoryOk);
  }

  lemma LlmToolCallsKeepNames(cfg: Config, c: Cell, e: Event)
    requires e.LlmResult? && c.task.Some? && c.session.Some? && Named(c) && NamesCalls(e)
    ensures Named(OnLlmToolCalls(cfg, c, e).cell)
  {
    var calls := ResolveAll(cfg, e.calls);
    CallsNamed(calls);
    RecordKeepsNames(c, Assistant(e.cleaned, calls));
  }

  lemma ReplyKeepsNames(c: Cell, text: string)
    requires c.task.Some? && c.session.Some? && Named(c)
    ensures Named(Finish(c))
    ensures Named(Finish(c.(session := Some(Recorded(c.session.value, Assistant(text, []), c.task.value.noRecord)))))
  {
    RecordKeepsNames(c, Assistant(text, []));
    hide Recorded;
  }

  lemma LlmResultKeepsNames(cfg: Config, before: Cell, e: Event)
    requires e.LlmResult? && before.llm > 0 && Named(before) && NamesCalls(e)
    ensures Named(OnLlmResult(cfg, before, e).cell)
  {
    var c := before.(llm := before.llm - 1);
    assert Named(c) && (c.task.Some? && c.session.None? ==> Named(Finish(c)));
    hide Named, Recorded, Finish, OnLlmToolCalls, ReplyText, NamesCalls;
    if c.task.Some? && c.session.Some? {
      ReplyKeepsNames(c, if e.error.Some? then SORRY + e.error.value else ReplyText(c.task.value, e));
      LlmToolCallsKeepNames(cfg, c, e);
    }
  }

  lemma ToolResultKeepsNames(cfg: Config, c: Cell, e: Event)
    requires e.ToolResult? && e.call in c.tools && Named(c)
    ensures Named(OnToolResult(cfg, c, e).cell)
  {
    if c.task.Some? && c.session.Some? {
      RecordKeepsNames(c, Tool(e.outcome, e.call));
      assert Named(Taken(c, e));
    }
  }

  lemma StepKeepsNames(cfg: Config, c: Cell, e: Event)
    requires Enabled(c, e) && Named(c) && NamesCalls(e)
    ensures Named(CellStep(cfg, c, e).cell)
  {
    match e {
      case Inbound(_, _, _, _, _, _, _) => InboundKeepsNames(cfg, c, e);
      case LlmResult(_, _, _, _, _, _) => LlmResultKeepsNames(cfg, c, e);
      case ToolResult(_, _, _) => ToolResultKeepsNames(cfg, c, e);
    }
  }

  /** When the provider names its calls, every request carries a closed window. */
  lemma NamedRequestIsClosed(cfg: Config, c: Cell, e: Event)
    requires CellInv(cfg, c) && Enabled(c, e) && Named(c) && NamesCalls(e)
    ensures forall p | p in CellStep(cfg, c, e).prompts :: Closed(p.window)
  {
    RequestCarriesWindow(cfg, c, e);
    StepKeepsNames(cfg, c, e);
    hide CellStep, CellInv, Window, Closed, Repairable;
    var f := CellStep(cfg, c, e);
    forall p | p in f.prompts ensures Closed(p.window) {
      NamedWindowIsClosed(p.window, f.cell.session.value.messages, cfg.ContextWindow());
    }
  }

  lemma NamedWindowIsClosed(w: seq<Message>, h: seq<Message>, max: nat)
    requires GoodWindow(w, h, max) && NamedHistory(h)
    ensures Closed(w)
  {
    hide Window, Closed, Repairable;
    if w != [] {
      assert w[0] == h[|h| - |w|];
    }
  }

  // ----- many sessions

  datatype World = World(cells: map<string, Cell>, outbox: seq<Outbound>, prompts: seq<Prompt>, issued: set<string>)

  const START := World(map[], [], [], {})

  function CellOf(w: World, key: string): Cell {
    if key in w.cells then w.cells[key] else EMPTY
  }

  predicate CanStep(w: World, e: Event) {
    Enabled(CellOf(w, e.Key()), e) && (e.Inbound? ==> e.taskId !in w.issued)
  }

  /** A session's step carried into the world. */
  function Put(w: World, e: Event, f: Effect): World {
    World(w.cells[e.Key() := f.cell], w.outbox + f.out, w.prompts + f.prompts,
          if Accepts(CellOf(w, e.Key()), e) then w.issued + {e.taskId} else w.issued)
  }

  predicate Ignored(e: Event) {
    e.Inbound? && e.content == ""
  }

  function Step(cfg: Config, w: World, e: Event): World
    requires CanStep(w, e)
  {
    if Ignored(e) then w else Put(w, e, CellStep(cfg, CellOf(w, e.Key()), e))
  }

  predicate IsRun(cfg: Config, w: World, run: seq<Event>)
    decreases |run|
  {
    run != [] ==> CanStep(w, run[0]) && IsRun(cfg, Step(cfg, w, run[0]), run[1..])
  }

  function After(cfg: Config, w: World, run: seq<Event>): World
    requires IsRun(cfg, w, run)
    decreases |run|
  {
    if run == [] then w else After(cfg, Step(cfg, w, run[0]), run[1..])
  }

  predicate Runs(w: World, key: string, id: string) {
    CellOf(w, key).task.Some? && CellOf(w, key).task.value.id == id
  }

  /** Tasks are keyed by session and have distinct ids that were given out. */
  predicate TasksKeyed(w: World) {
    && (forall key | key in w.cells && w.cells[key].task.Some? ::
          w.cells[key].task.value.key == key && w.cells[key].task.value.id in w.issued)
    && (forall k1, k2 | k1 in w.cells && k2 in w.cells && w.cells[k1].task.Some? && w.cells[k2].task.Some?
          && w.cells[k1].task.value.id == w.cells[k2].task.value.id :: k1 == k2)
  }

  predicate Running(w: World, id: string) {
    exists key :: key in w.cells && Runs(w, key, id)
  }

  /** A task that was given out has its one final reply exactly when it no longer runs; the
      LLM was asked once per turn while it runs, and never more than the limit. */
  ghost predicate Balanced(cfg: Config, w: World) {
    && (forall id | id !in w.issued :: Replies(w.outbox, id) == 0 && Requests(w.prompts, id) == 0)
    && (forall id | id in w.issued ::
          && Replies(w.outbox, id) == (if Running(w, id) then 0 else 1)
          && Requests(w.prompts, id) <= cfg.MaxTurns())
    && (forall key | key in w.cells && w.cells[key].task.Some? ::
          Requests(w.prompts, w.cells[key].task.value.id) == w.cells[key].task.value.turn)
  }

  ghost predicate Inv(cfg: Config, w: World) {
    && (forall key | key in w.cells :: CellInv(cfg, w.cells[key]))
    && TasksKeyed(w)
    && Balanced(cfg, w)
    && (forall p | p in w.prompts :: WindowOk(p.window))
  }

  lemma CellOfInv(cfg: Config, w: World, key: string)
    requires Inv(cfg, w)
    ensures CellInv(cfg, CellOf(w, key))
  {
  }

  lemma PutKeepsKeys(cfg: Config, w: World, e: Event, f: Effect)
    requires TasksKeyed(w) && CanStep(w, e) && Accounted(CellOf(w, e.Key()), e, f)
    ensures TasksKeyed(Put(w, e, f))
  {
    hide CellInv;
  }

  /** Which tasks run after a step: the same ones, but for the session it is about. */
  lemma RunningAfter(w: World, e: Event, f: Effect, id: string)
    requires TasksKeyed(w) && CanStep(w, e)
    ensures var c := CellOf(w, e.Key());
            Running(Put(w, e, f), id) <==>
              if f.cell.task.Some? && f.cell.task.value.id == id then true
              else if c.task.Some? && c.task.value.id == id then false
              else Running(w, id)
  {
    var w', c := Put(w, e, f), CellOf(w, e.Key());
    assert CellOf(w', e.Key()) == f.cell;
    if f.cell.task.Some? && f.cell.task.value.id == id {
      assert Runs(w', e.Key(), id);
    } else if c.task.Some? && c.task.value.id == id {
      assert Runs(w, e.Key(), id);
    } else if Running(w, id) {
      var key :| key in w.cells && Runs(w, key, id);
      assert Runs(w', key, id);
    }
  }

  lemma PutCounts(w: World, e: Event, f: Effect, id: string)
    ensures Replies(Put(w, e, f).outbox, id) == Replies(w.outbox, id) + Replies(f.out, id)
    ensures Requests(Put(w, e, f).prompts, id) == Requests(w.prompts, id) + Requests(f.prompts, id)
  {
    RepliesAppend(w.outbox, f.out, id);
    RequestsAppend(w.prompts, f.prompts, id);
  }

  lemma PutBalancesTask(cfg: Config, w: World, e: Event, f: Effect, id: string)
    requires TasksKeyed(w) && Balanced(cfg, w) && CanStep(w, e)
    requires Accounted(CellOf(w, e.Key()), e, f)
    requires f.cell.task.Some? ==> f.cell.task.value.turn <= cfg.MaxTurns()
    ensures var w' := Put(w, e, f);
            if id in w'.issued then
              && Replies(w'.outbox, id) == (if Running(w', id) then 0 else 1)
              && Requests(w'.prompts, id) <= cfg.MaxTurns()
              && (f.cell.task.Some? && f.cell.task.value.id == id ==>
                    Requests(w'.prompts, id) == f.cell.task.value.turn)
            else
              Replies(w'.outbox, id) == 0 && Requests(w'.prompts, id) == 0
  {
    var c := CellOf(w, e.Key());
    RunningAfter(w, e, f, id);
    PutCounts(w, e, f, id);
    if c.task.Some? && c.task.value.id == id {
      assert Runs(w, e.Key(), id);
    }
    assert Running(w, id) ==> id in w.issued;
  }

  lemma PutKeepsBalance(cfg: Config, w: World, e: Event, f: Effect)
    requires TasksKeyed(w) && Balanced(cfg, w) && CanStep(w, e)
    requires Accounted(CellOf(w, e.Key()), e, f)
    requires f.cell.task.Some? ==> f.cell.task.value.turn <= cfg.MaxTurns()
    ensures Balanced(cfg, Put(w, e, f))
  {
    var w' := Put(w, e, f);
    PutKeepsKeys(cfg, w, e, f);
    forall id
      ensures id !in w'.issued ==> Replies(w'.outbox, id) == 0 && Requests(w'.prompts, id) == 0
      ensures id in w'.issued ==>
                && Replies(w'.outbox, id) == (if Running(w', id) then 0 else 1)
                && Requests(w'.prompts, id) <= cfg.MaxTurns()
    {
      PutBalancesTask(cfg, w, e, f, id);
    }
    forall key | key in w'.cells && w'.cells[key].task.Some?
      ensures Requests(w'.prompts, w'.cells[key].task.value.id) == w'.cells[key].task.value.turn
    {
      var id := w'.cells[key].task.value.id;
      PutBalancesTask(cfg, w, e, f, id);
      if key != e.Key() {
        PutCounts(w, e, f, id);
        OthersCount(w, e, f, key);
      }
    }
  }

  lemma OthersCount(w: World, e: Event, f: Effect, key: string)
    requires TasksKeyed(w) && CanStep(w, e) && Accounted(CellOf(w, e.Key()), e, f)
    requires key in w.cells && w.cells[key].task.Some? && key != e.Key()
    ensures Requests(f.prompts, w.cells[key].task.value.id) == 0
  {
  }

  lemma PutKeepsInv(cfg: Config, w: World, e: Event, f: Effect)
    requires Inv(cfg, w) && CanStep(w, e) && Accounted(CellOf(w, e.Key()), e, f)
    requires CellInv(cfg, f.cell) && forall p | p in f.prompts :: WindowOk(p.window)
    ensures Inv(cfg, Put(w, e, f))
  {
    assert f.cell.task.Some? ==> f.cell.task.value.turn <= cfg.MaxTurns();
    hide Accounted, CellInv, WindowOk, TasksKeyed, Balanced;
    PutKeepsKeys(cfg, w, e, f);
    PutKeepsBalance(cfg, w, e, f);
  }

  lemma RequestWindowsOk(cfg: Config, c: Cell, e: Event)
    requires CellInv(cfg, c) && Enabled(c, e)
    ensures forall p | p in CellStep(cfg, c, e).prompts :: WindowOk(p.window)
  {
    RequestCarriesWindow(cfg, c, e);
    hide CellStep, CellInv, WindowOk, Window, Closed, Repairable;
  }

  lemma StepKeepsInv(cfg: Config, w: World, e: Event)
    requires Inv(cfg, w) && CanStep(w, e)
    ensures Inv(cfg, Step(cfg, w, e))
  {
    var c := CellOf(w, e.Key());
    CellOfInv(cfg, w, e.Key());
    StepAccounted(cfg, c, e);
    CellStepKeepsInv(cfg, c, e);
    RequestWindowsOk(cfg, c, e);
    hide CellStep, CellInv, Accounted, Inv, WindowOk, Put;
    PutKeepsInv(cfg, w, e, CellStep(cfg, c, e));
  }

  /** Sessions do not interfere: an event changes no session but its own. */
  lemma OtherSessionsUntouched(cfg: Config, w: World, e: Event, key: string)
    requires CanStep(w, e) && key != e.Key()
    ensures CellOf(Step(cfg, w, e), key) == CellOf(w, key)
  {
    hide CellStep, CellInv;
  }

  lemma {:induction false} RunKeepsInv(cfg: Config, w: World, run: seq<Event>)
    requires Inv(cfg, w) && IsRun(cfg, w, run)
    ensures Inv(cfg, After(cfg, w, run))
    decreases |run|
  {
    if run != [] {
      StepKeepsInv(cfg, w, run[0]);
      RunKeepsInv(cfg, Step(cfg, w, run[0]), run[1..]);
    }
  }

  /** Safety of every run from nothing, for any number of sessions and any arrival order. */
  lemma EveryRunIsSafe(cfg: Config, run: seq<Event>)
    requires IsRun(cfg, START, run)
    ensures Inv(cfg, After(cfg, START, run))
  {
    RunKeepsInv(cfg, START, run);
  }

  predicate AllNamed(w: World) {
    && (forall key | key in w.cells :: Named(w.cells[key]))
    && (forall p | p in w.prompts :: Closed(p.window))
  }

  lemma PutKeepsAllNamed(w: World, e: Event, f: Effect)
    requires AllNamed(w) && Named(f.cell) && forall p | p in f.prompts :: Closed(p.window)
    ensures AllNamed(Put(w, e, f))
  {
    hide Named, Closed, Accepts;
  }

  lemma StepKeepsAllNamed(cfg: Config, w: World, e: Event)
    requires Inv(cfg, w) && AllNamed(w) && CanStep(w, e) && NamesCalls(e)
    ensures AllNamed(Step(cfg, w, e))
  {
    var c := CellOf(w, e.Key());
    CellOfInv(cfg, w, e.Key());
    assert Named(c);
    StepKeepsNames(cfg, c, e);
    NamedRequestIsClosed(cfg, c, e);
    hide CellStep, CellInv, Inv, Named, Closed, AllNamed, Put;
    PutKeepsAllNamed(w, e, CellStep(cfg, c, e));
  }

  lemma {:induction false} RunKeepsNames(cfg: Config, w: World, run: seq<Event>)
    requires Inv(cfg, w) && AllNamed(w) && IsRun(cfg, w, run)
    requires forall i | 0 <= i < |run| :: NamesCalls(run[i])
    ensures AllNamed(After(cfg, w, run))
    decreases |run|
  {
    hide Inv, AllNamed, Step;
    if run != [] {
      StepKeepsInv(cfg, w, run[0]);
      StepKeepsAllNamed(cfg, w, run[0]);
      RunKeepsNames(cfg, Step(cfg, w, run[0]), run[1..]);
    }
  }

  /** Over every run whose provider names its calls, every request ever made carries a
      window in which each result follows its owner and each call is answered once. */
  lemma EveryRequestIsClosed(cfg: Config, run: seq<Event>)
    requires IsRun(cfg, START, run)
    requires forall i | 0 <= i < |run| :: NamesCalls(run[i])
    ensures forall p | p in After(cfg, START, run).prompts :: Closed(p.window)
  {
    RunKeepsNames(cfg, START, run);
  }

  // ----- runs that start from session files

  /** What a restarted loop has: histories read from files, no tasks, nothing outstanding. A
      file is read when its session's first message arrives and changes only with its session,
      so having all of them from the start makes no difference. */
  predicate Restarted(w: World) {
    && w.outbox == [] && w.prompts == [] && w.issued == {}
    && forall key | key in w.cells ::
         w.cells[key].task == None && w.cells[key].llm == 0 && w.cells[key].tools == multiset{}
  }

  predicate HistoriesClosed(w: World) {
    forall key | key in w.cells && w.cells[key].session.Some? :: Closed(w.cells[key].session.value.messages)
  }

  /** All that holds over runs from nothing holds over runs from closed histories. */
  lemma EveryRestartIsSafe(cfg: Config, w: World, run: seq<Event>)
    requires Restarted(w) && IsRun(cfg, w, run)
    ensures Inv(cfg, w) <==> HistoriesClosed(w)
    ensures HistoriesClosed(w) ==> Inv(cfg, After(cfg, w, run))
  {
    hide Closed;
    if HistoriesClosed(w) {
      assert forall id :: !Running(w, id);
      RunKeepsInv(cfg, w, run);
    } else {
      var key :| key in w.cells && w.cells[key].session.Some? && !Closed(w.cells[key].session.value.messages);
      assert !CellInv(cfg, w.cells[key]);
    }
  }

  lemma EveryRestartedRequestIsClosed(cfg: Config, w: World, run: seq<Event>)
    requires Restarted(w) && HistoriesClosed(w) && IsRun(cfg, w, run)
    requires forall key | key in w.cells :: Named(w.cells[key])
    requires forall i | 0 <= i < |run| :: NamesCalls(run[i])
    ensures forall p | p in After(cfg, w, run).prompts :: Closed(p.window)
  {
    EveryRestartIsSafe(cfg, w, []);
    hide Inv, Named, Closed, NamesCalls, HistoriesClosed;
    RunKeepsNames(cfg, w, run);
  }

  /** A first message closes nothing: its request, when nothing is cut, is closed exactly if the
      history was. A history saved while results were outstanding is the failing family. */
  lemma RestartedRequestExact(cfg: Config, c: Cell, e: Event)
    requires c.task == None && c.session.Some? && Accepts(c, e)
    requires |c.session.value.messages| < cfg.ContextWindow()
    ensures var f := CellStep(cfg, c, e);
            |f.prompts| == 1 && (Closed(f.prompts[0].window) <==> Closed(c.session.value.messages))
  {
    var h, m := c.session.value.messages, User(Formatted(e.sender, e.content));
    SavesKeepMessages(WithMessage(c.session.value, m), m, true, cfg.ConsolidationWindow(), e.memoryOk);
    hide Closed, Consolidated, Formatted;
    assert CellStep(cfg, c, e).prompts[0].window == h + [m];
    if Closed(h) {
      ClosedSnoc(h, m);
    }
    if Closed(h + [m]) {
      ClosedPrefix(h, m);
    }
  }

  /** A restart in the middle of a tool call: the next request carries an unanswered call. */
  lemma OpenRestartExample(cfg: Config) returns (w: World, e: Event)
    requires cfg.ContextWindow() > 1
    ensures Restarted(w) && !HistoriesClosed(w) && CanStep(w, e)
    ensures exists p :: p in Step(cfg, w, e).prompts && !Closed(p.window)
  {
    var h := [Assistant("", [ToolCall("c1", "exec", "{}")])];
    e := Inbound("cli", "1", "hello", "", false, "t", false);
    assert SkipSpace(e.content)[0] == 'h';
    var s := NewSession(e.Key()).(messages := h, needsFull := false, lastSaved := 1);
    w := World(map[e.Key() := Cell(None, 0, multiset{}, Some(s))], [], [], {});
    assert !BlockAnswered(h, 0) by {
      assert |Asked(h[0])| == 1 && Answers(h, 1, 1) == multiset{};
    }
    assert !Closed(h);
    RestartedRequestExact(cfg, CellOf(w, e.Key()), e);
    var p := CellStep(cfg, CellOf(w, e.Key()), e).prompts[0];
    assert p in Step(cfg, w, e).prompts;
  }
}
