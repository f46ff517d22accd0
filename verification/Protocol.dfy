/** The agent-loop protocol as a machine: what each consumed event does to its session. */
module Protocol {
  import opened Text
  import opened Wrappers
  import opened History
  import opened SessionStore

  datatype Config = Config(maxIterations: int, memoryWindow: int, tools: set<string>) {
    function MaxTurns(): (n: nat)
      ensures n > 0
    {
      if maxIterations > 0 then maxIterations else 15
    }

    /** Messages the provider keeps in a request. */
    function ContextWindow(): (n: nat)
      ensures n > 0
    {
      if memoryWindow > 0 then memoryWindow else 30
    }

    function ConsolidationWindow(): (n: nat)
      ensures n > 0
    {
      if memoryWindow > 0 then memoryWindow else 100
    }
  }

  datatype TaskState = Idle | WaitingLlm | WaitingTool

  datatype Task = Task(
    id: string,
    key: string,
    channel: string,
    chatId: string,
    state: TaskState,
    turn: nat,
    pending: int,
    noRecord: bool,
    countBefore: nat)

  /** Which send an outbound message comes from; a final one ends its task. */
  datatype Kind = Notice | Progress | Final(taskId: string)

  datatype Outbound = Outbound(kind: Kind, channel: string, chatId: string, content: string)

  /** A request to the provider: the task it serves and the window of history it carries. */
  datatype Prompt = Prompt(taskId: string, window: seq<Message>)

  /** `memoryOk`, `cleaned` and `reminder` are answers of code outside the protocol: whether
      the memory files could be written, the response without think tags, and the
      confirmation of a reminder scheduled on the user's behalf. */
  datatype Event =
    | Inbound(channel: string, chatId: string, content: string, sender: string, noRecord: bool,
              taskId: string, memoryOk: bool)
    | LlmResult(key: string, error: Option<string>, text: string, cleaned: string,
                calls: seq<ToolCall>, reminder: Option<string>)
    | ToolResult(key: string, call: Call, outcome: string)
  {
    function Key(): string {
      if Inbound? then SessionKey(channel, chatId) else key
    }
  }

  function SessionKey(channel: string, chatId: string): string {
    channel + ":" + chatId
  }

  const BUSY := "Session is busy processing the previous request. Please wait for it to finish."
  const SORRY := "Sorry, I encountered an error: "
  const TOO_MANY := "I reached the maximum number of tool call iterations without completing the task."

  /** One session: its task if any, the results still to come, and its messages. */
  datatype Cell = Cell(task: Option<Task>, llm: nat, tools: multiset<Call>, session: Option<SessionState>)

  const EMPTY := Cell(None, 0, multiset{}, None)

  datatype Effect = Effect(cell: Cell, out: seq<Outbound>, prompts: seq<Prompt>)

  // ----- the handlers, on one session

  function Reply(t: Task, kind: Kind, content: string): Outbound {
    Outbound(kind, t.channel, t.chatId, content)
  }

  /** Adds a message and, unless the task leaves no record, saves. */
  function Recorded(s: SessionState, m: Message, noRecord: bool): SessionState {
    if noRecord then WithMessage(s, m) else AfterSave(WithMessage(s, m))
  }

  function Trigger(cfg: Config, c: Cell, out: seq<Outbound>): Effect
    requires c.task.Some? && c.session.Some?
  {
    Effect(c.(llm := c.llm + 1), out,
           [Prompt(c.task.value.id, Window(c.session.value.messages, cfg.ContextWindow()))])
  }

  /** Removing a task that leaves no record first rolls its messages back. */
  function Finish(c: Cell): Cell
    requires c.task.Some?
  {
    var t := c.task.value;
    c.(task := None,
       session := if t.noRecord && c.session.Some? then Some(RolledBack(c.session.value, t.countBefore))
                  else c.session)
  }

  function Formatted(sender: string, content: string): string {
    if sender != "" then "[" + sender + "]: " + content else content
  }

  predicate Busy(c: Cell) {
    c.task.Some? && c.task.value.state != Idle
  }

  /** A slash command is handed to the command dispatcher, which is not part of this model. */
  predicate IsCommand(content: string) {
    var trimmed := SkipSpace(content);
    trimmed != [] && trimmed[0] == '/'
  }

  predicate Accepts(c: Cell, e: Event) {
    e.Inbound? && e.content != "" && !IsCommand(e.content) && !Busy(c)
  }

  function SessionOr(c: Cell, key: string): SessionState {
    if c.session.Some? then c.session.value else NewSession(key)
  }

  function NewTask(e: Event, countBefore: nat): Task
    requires e.Inbound?
  {
    Task(e.taskId, e.Key(), e.channel, e.chatId, WaitingLlm, 1, 0, e.noRecord, countBefore)
  }

  function OnInbound(cfg: Config, c: Cell, e: Event): Effect
    requires e.Inbound?
  {
    var s := SessionOr(c, e.Key());
    if e.content == "" then Effect(c, [], [])
    else if IsCommand(e.content) then Effect(c.(session := Some(s)), [], [])
    else if Busy(c) then
      Effect(c.(session := Some(s)), [Outbound(Notice, e.channel, e.chatId, BUSY)], [])
    else
      var asked := WithMessage(s, User(Formatted(e.sender, e.content)));
      var kept := Consolidated(asked, cfg.ConsolidationWindow(), e.memoryOk);
      Trigger(cfg, c.(task := Some(NewTask(e, |s.messages|)), session := Some(kept)), [])
  }

  function OnLlmError(c: Cell, e: Event): Effect
    requires e.LlmResult? && e.error.Some? && c.task.Some? && c.session.Some?
  {
    var t, text := c.task.value, SORRY + e.error.value;
    Effect(Finish(c.(session := Some(Recorded(c.session.value, Assistant(text, []), t.noRecord)))),
           [Reply(t, Final(t.id), text)], [])
  }

  function ReplyText(t: Task, e: Event): string
    requires e.LlmResult?
  {
    if t.turn <= 1 && t.pending == 0 && e.reminder.Some? then e.reminder.value
    else if e.cleaned != "" then e.cleaned
    else e.text
  }

  function OnLlmText(c: Cell, e: Event): Effect
    requires e.LlmResult? && c.task.Some? && c.session.Some?
  {
    var t, s := c.task.value, c.session.value;
    var text := ReplyText(t, e);
    Effect(Finish(if text == "" then c else c.(session := Some(Recorded(s, Assistant(text, []), t.noRecord)))),
           [Reply(t, Final(t.id), text)], [])
  }

  /** A call to a tool nobody registered becomes a request to load the skill of that name. */
  function Resolve(cfg: Config, call: ToolCall): ToolCall {
    if call.name in cfg.tools || call.name == "skill" then call
    else ToolCall(call.id, "skill", "{\"action\":\"load\",\"name\":\"" + call.name + "\"}")
  }

  function ResolveAll(cfg: Config, calls: seq<ToolCall>): (r: seq<ToolCall>)
    ensures |r| == |calls|
    ensures forall i | 0 <= i < |r| :: r[i] == Resolve(cfg, calls[i])
  {
    seq(|calls|, i requires 0 <= i < |calls| => Resolve(cfg, calls[i]))
  }

  function OnLlmToolCalls(cfg: Config, c: Cell, e: Event): Effect
    requires e.LlmResult? && c.task.Some? && c.session.Some?
  {
    var t, s := c.task.value, c.session.value;
    var calls := ResolveAll(cfg, e.calls);
    Effect(c.(session := Some(Recorded(s, Assistant(e.cleaned, calls), t.noRecord)),
              task := Some(t.(state := WaitingTool, pending := |calls|)),
              tools := c.tools + CallsOf(calls)),
           if e.cleaned != "" then [Reply(t, Progress, e.cleaned)] else [], [])
  }

  function OnLlmResult(cfg: Config, before: Cell, e: Event): Effect
    requires e.LlmResult? && before.llm > 0
  {
    var c := before.(llm := before.llm - 1);
    if c.task.None? then Effect(c, [], [])
    else if c.session.None? then Effect(Finish(c), [], [])
    else if e.error.Some? then OnLlmError(c, e)
    else if e.calls == [] then OnLlmText(c, e)
    else OnLlmToolCalls(cfg, c, e)
  }

  /** The cell with one tool result taken in. */
  function Taken(c: Cell, e: Event): Cell
    requires e.ToolResult? && c.task.Some? && c.session.Some?
  {
    var t := c.task.value;
    c.(tools := c.tools - multiset{e.call},
       session := Some(Recorded(c.session.value, Tool(e.outcome, e.call), t.noRecord)),
       task := Some(t.(pending := t.pending - 1)))
  }

  /** Waits for more results, gives up at the turn limit, or asks the LLM again. */
  function NextRound(cfg: Config, c: Cell): Effect
    requires c.task.Some? && c.session.Some?
  {
    var t := c.task.value;
    if t.pending > 0 then Effect(c, [], [])
    else if t.turn >= cfg.MaxTurns() then Effect(Finish(c), [Reply(t, Final(t.id), SORRY + TOO_MANY)], [])
    else Trigger(cfg, c.(task := Some(t.(turn := t.turn + 1, state := WaitingLlm))), [])
  }

  function OnToolResult(cfg: Config, before: Cell, e: Event): Effect
    requires e.ToolResult? && e.call in before.tools
  {
    var c := before.(tools := before.tools - multiset{e.call});
    if c.task.None? then Effect(c, [], [])
    else if c.session.None? then Effect(Finish(c), [], [])
    else NextRound(cfg, Taken(before, e))
  }

  predicate Enabled(c: Cell, e: Event) {
    match e
    case Inbound(_, _, _, _, _, _, _) => true
    case LlmResult(_, _, _, _, _, _) => c.llm > 0
    case ToolResult(_, call, _) => call in c.tools
  }

  function CellStep(cfg: Config, c: Cell, e: Event): Effect
    requires Enabled(c, e)
  {
    match e
    case Inbound(_, _, _, _, _, _, _) => OnInbound(cfg, c, e)
    case LlmResult(_, _, _, _, _, _) => OnLlmResult(cfg, c, e)
    case ToolResult(_, _, _) => OnToolResult(cfg, c, e)
  }

  // ----- what every step of a session keeps

  /** A history some of whose calls are outstanding. */
  predicate Awaits(h: seq<Message>, outstanding: multiset<Call>) {
    exists j :: 0 <= j < |h| && OpenAt(h, j, outstanding)
  }

  /** Waiting for the LLM: one LLM result and no tool result to come, history closed.
      Waiting for tools: exactly `pending` results to come, the ones the history lacks.
      No task: nothing to come, history closed. */
  predicate CellInv(cfg: Config, c: Cell) {
    match c.task
    case None =>
      c.llm == 0 && c.tools == multiset{} && (c.session.Some? ==> Closed(c.session.value.messages))
    case Some(t) =>
      && c.session.Some?
      && 1 <= t.turn <= cfg.MaxTurns()
      && t.countBefore <= |c.session.value.messages|
      && Closed(c.session.value.messages[..t.countBefore])
      && match t.state
         case Idle => false
         case WaitingLlm =>
           c.llm == 1 && c.tools == multiset{} && t.pending == 0 && Closed(c.session.value.messages)
         case WaitingTool =>
           c.llm == 0 && t.pending == |c.tools| > 0 && Awaits(c.session.value.messages, c.tools)
  }

  lemma SavesKeepMessages(s: SessionState, m: Message, noRecord: bool, window: nat, memoryOk: bool)
    ensures Recorded(s, m, noRecord).messages == s.messages + [m]
    ensures Consolidated(s, window, memoryOk).messages == s.messages
  {
  }

  lemma FinishKeepsInv(cfg: Config, c: Cell)
    requires c.task.Some? && c.llm == 0 && c.tools == multiset{}
    requires c.session.Some? && Closed(c.session.value.messages)
    requires c.task.value.countBefore <= |c.session.value.messages|
    requires Closed(c.session.value.messages[..c.task.value.countBefore])
    ensures CellInv(cfg, Finish(c))
  {
  }

  lemma InboundKeepsInv(cfg: Config, c: Cell, e: Event)
    requires CellInv(cfg, c) && e.Inbound?
    ensures CellInv(cfg, OnInbound(cfg, c, e).cell)
  {
    if Accepts(c, e) {
      var s := SessionOr(c, e.Key());
      var m := User(Formatted(e.sender, e.content));
      var asked := WithMessage(s, m);
      SavesKeepMessages(asked, m, true, cfg.ConsolidationWindow(), e.memoryOk);
      ClosedSnoc(s.messages, m);
      assert asked.messages[..|s.messages|] == s.messages;
    }
  }

  lemma ClosingReplyKeepsInv(cfg: Config, c: Cell, text: string)
    requires c.task.Some? && c.session.Some? && c.llm == 0 && c.tools == multiset{}
    requires CellInv(cfg, c.(llm := 1)) && c.task.value.state == WaitingLlm
    ensures CellInv(cfg, Finish(c))
    ensures CellInv(cfg, Finish(c.(session := Some(Recorded(c.session.value, Assistant(text, []), c.task.value.noRecord)))))
  {
    var t, h, m := c.task.value, c.session.value.messages, Assistant(text, []);
    SavesKeepMessages(c.session.value, m, t.noRecord, 0, false);
    ClosedSnoc(h, m);
    assert (h + [m])[..t.countBefore] == h[..t.countBefore];
    FinishKeepsInv(cfg, c);
    FinishKeepsInv(cfg, c.(session := Some(Recorded(c.session.value, m, t.noRecord))));
  }

  lemma ToolCallsKeepInv(cfg: Config, c: Cell, e: Event)
    requires CellInv(cfg, c.(llm := 1)) && c.llm == 0 && e.LlmResult? && e.calls != []
    requires c.task.Some? && c.session.Some? && c.task.value.state == WaitingLlm
    ensures CellInv(cfg, OnLlmToolCalls(cfg, c, e).cell)
  {
    var t, h := c.task.value, c.session.value.messages;
    var calls := ResolveAll(cfg, e.calls);
    var m := Assistant(e.cleaned, calls);
    SavesKeepMessages(c.session.value, m, t.noRecord, 0, false);
    OpenCalls(h, m);
    assert multiset{} + CallsOf(calls) == CallsOf(calls);
    assert (h + [m])[..t.countBefore] == h[..t.countBefore];
  }

  lemma LlmResultKeepsInv(cfg: Config, c: Cell, e: Event)
    requires CellInv(cfg, c) && e.LlmResult? && c.llm > 0
    ensures CellInv(cfg, OnLlmResult(cfg, c, e).cell)
  {
    var d := c.(llm := c.llm - 1);
    assert d.(llm := 1) == c;
    if e.error.Some? {
      ClosingReplyKeepsInv(cfg, d, SORRY + e.error.value);
    } else if e.calls == [] {
      ClosingReplyKeepsInv(cfg, d, ReplyText(d.task.value, e));
    } else {
      ToolCallsKeepInv(cfg, d, e);
    }
  }

  lemma OneFewer(b: multiset<Call>, c: Call)
    requires c in b
    ensures |b - multiset{c}| == |b| - 1
    ensures |b| == 1 ==> b - multiset{c} == multiset{}
  {
  }

  lemma AnswerArrives(h: seq<Message>, outstanding: multiset<Call>, m: Message)
    requires Awaits(h, outstanding) && m.Tool? && m.call in outstanding
    ensures var left := outstanding - multiset{m.call};
            && |left| == |outstanding| - 1
            && (|left| > 0 ==> Awaits(h + [m], left))
            && (|left| == 0 ==> left == multiset{} && Closed(h + [m]))
  {
    OneFewer(outstanding, m.call);
    var j :| 0 <= j < |h| && OpenAt(h, j, outstanding);
    OpenAnswer(h, j, outstanding, m);
    if |outstanding| == 1 {
      OpenCloses(h + [m], j);
    }
  }

  /** Between taking a result in and deciding what comes next. */
  predicate Midway(cfg: Config, c: Cell) {
    && c.task.Some? && c.session.Some? && c.llm == 0
    && var t, h := c.task.value, c.session.value.messages;
       && t.state == WaitingTool && 1 <= t.turn <= cfg.MaxTurns()
       && t.countBefore <= |h| && Closed(h[..t.countBefore])
       && t.pending == |c.tools|
       && (if c.tools == multiset{} then Closed(h) else Awaits(h, c.tools))
  }

  lemma ExtendedIsMidway(cfg: Config, c: Cell, m: Message, d: Cell)
    requires CellInv(cfg, c) && m.Tool? && m.call in c.tools
    requires d.task == Some(c.task.value.(pending := c.task.value.pending - 1)) && d.llm == c.llm
    requires d.tools == c.tools - multiset{m.call}
    requires d.session.Some? && d.session.value.messages == c.session.value.messages + [m]
    ensures Midway(cfg, d)
  {
    var n, h := c.task.value.countBefore, c.session.value.messages;
    hide Closed, Awaits;
    SameStart(h, m, n);
    AnswerArrives(h, c.tools, m);
    EmptyBag(d.tools);
  }

  lemma SameStart(h: seq<Message>, m: Message, n: nat)
    requires n <= |h|
    ensures (h + [m])[..n] == h[..n]
  {
  }

  lemma EmptyBag(b: multiset<Call>)
    ensures |b| == 0 <==> b == multiset{}
  {
  }

  lemma TakenIsMidway(cfg: Config, c: Cell, e: Event)
    requires CellInv(cfg, c) && e.ToolResult? && e.call in c.tools
    ensures Midway(cfg, Taken(c, e))
  {
    var m := Tool(e.outcome, e.call);
    SavesKeepMessages(c.session.value, m, c.task.value.noRecord, 0, false);
    ExtendedIsMidway(cfg, c, m, Taken(c, e));
  }

  lemma NextRoundKeepsInv(cfg: Config, c: Cell)
    requires Midway(cfg, c)
    ensures CellInv(cfg, NextRound(cfg, c).cell)
  {
    if c.task.value.pending == 0 && c.task.value.turn >= cfg.MaxTurns() {
      FinishKeepsInv(cfg, c);
    }
  }

  lemma ToolResultKeepsInv(cfg: Config, c: Cell, e: Event)
    requires CellInv(cfg, c) && e.ToolResult? && e.call in c.tools
    ensures CellInv(cfg, OnToolResult(cfg, c, e).cell)
  {
    TakenIsMidway(cfg, c, e);
    NextRoundKeepsInv(cfg, Taken(c, e));
  }

  /** Pending counts and history grammar are kept by every step. */
  lemma CellStepKeepsInv(cfg: Config, c: Cell, e: Event)
    requires CellInv(cfg, c) && Enabled(c, e)
    ensures CellInv(cfg, CellStep(cfg, c, e).cell)
  {
    hide CellInv, OnInbound, OnLlmResult, OnToolResult;
    match e {
      case Inbound(_, _, _, _, _, _, _) => InboundKeepsInv(cfg, c, e);
      case LlmResult(_, _, _, _, _, _) => LlmResultKeepsInv(cfg, c, e);
      case ToolResult(_, _, _) => ToolResultKeepsInv(cfg, c, e);
    }
  }
}
