/** What each step of a session sends, records and asks for, in the event's own terms; and
    where, over whole runs, everything that is sent goes. */
module Answers {
  import opened Text
  import opened Wrappers
  import opened History
  import opened SessionStore
  import opened Protocol
  import opened Runs

  lemma {:induction false} SkippedSpace(s: string) returns (n: nat)
    ensures n <= |s| && SkipSpace(s) == s[n..]
    ensures forall j | 0 <= j < n :: s[j] == ' ' || 9 <= s[j] as int <= 13
  {
    if s == [] || !IsSpace(s[0]) {
      n := 0;
    } else {
      var m := SkippedSpace(s[1..]);
      n := m + 1;
      assert s[1..][m..] == s[n..];
      assert forall j | 0 < j < n :: s[j] == s[1..][j - 1];
    }
  }

  /** A command is a text whose first character past the white space is a slash. */
  lemma CommandIs(content: string)
    ensures IsCommand(content) <==>
              exists i :: 0 <= i < |content| && content[i] == '/'
                && forall j | 0 <= j < i :: content[j] == ' ' || 9 <= content[j] as int <= 13
  {
    var n := SkippedSpace(content);
    assert n < |content| ==> content[n] == content[n..][0];
    forall i | 0 <= i < |content| && content[i] == '/' && forall j | 0 <= j < i :: IsSpace(content[j])
      ensures i == n
    {
    }
  }

  // ----- messages from users

  /** An accepted message is recorded, with its sender's name in front if there is one, starts
      a task at turn one that answers its chat, and asks the LLM once; nothing is sent yet. */
  lemma InboundSays(cfg: Config, c: Cell, e: Event)
    requires CellInv(cfg, c) && e.Inbound? && e.content != "" && !IsCommand(e.content) && c.task.None?
    ensures var f := CellStep(cfg, c, e);
            var before := if c.session.Some? then c.session.value.messages else [];
            var text := if e.sender != "" then "[" + e.sender + "]: " + e.content else e.content;
            && f.out == []
            && f.cell.session.Some? && f.cell.session.value.messages == before + [User(text)]
            && f.cell.task == Some(Task(e.taskId, e.channel + ":" + e.chatId, e.channel, e.chatId,
                                        WaitingLlm, 1, 0, e.noRecord, |before|))
            && f.cell.llm == 1 && f.cell.tools == multiset{}
            && f.prompts == [Prompt(e.taskId, Window(before + [User(text)],
                                                     if cfg.memoryWindow > 0 then cfg.memoryWindow else 30))]
  {
    hide Window, Closed, Due;
  }

  /** Nothing but a consolidation writes the new message to the file: it happens when 100
      messages, or as many as configured, lie past the cursor and the memory files are written. */
  lemma InboundSaves(cfg: Config, c: Cell, e: Event)
    requires CellInv(cfg, c) && e.Inbound? && e.content != "" && !IsCommand(e.content) && c.task.None?
    requires c.session.Some? && c.session.value.lastConsolidated <= |c.session.value.messages|
    ensures var s, t := c.session.value, CellStep(cfg, c, e).cell.session.value;
            var count := |s.messages| + 1;
            if e.memoryOk && count - s.lastConsolidated >= (if cfg.memoryWindow > 0 then cfg.memoryWindow else 100) then
              && t.lastConsolidated == t.lastSaved == count && !t.needsFull
              && t.disk == Some([Meta(s.key, count, count)] + Entries(t.messages))
            else
              t == s.(messages := t.messages)
  {
    hide Window, Closed;
  }

  /** A busy session sends its one notice and keeps its state. */
  lemma BusySays(cfg: Config, c: Cell, e: Event)
    requires CellInv(cfg, c) && e.Inbound? && e.content != "" && !IsCommand(e.content) && c.task.Some?
    ensures CellStep(cfg, c, e) ==
            Effect(c, [Outbound(Notice, e.channel, e.chatId,
                                "Session is busy processing the previous request. Please wait for it to finish.")], [])
  {
  }

  /** An empty message does nothing; a command at most creates the session. */
  lemma QuietSays(cfg: Config, c: Cell, e: Event)
    requires e.Inbound? && (e.content == "" || IsCommand(e.content))
    ensures var f := CellStep(cfg, c, e);
            && f.out == [] && f.prompts == []
            && f.cell == if e.content == "" || c.session.Some? then c
                         else c.(session := Some(SessionState(e.channel + ":" + e.chatId, [], 0, 0, true, None)))
  {
  }

  /** The world takes over exactly what the event's own session did. */
  lemma WorldSays(cfg: Config, w: World, e: Event)
    requires CanStep(w, e)
    ensures var key := if e.Inbound? then e.channel + ":" + e.chatId else e.key;
            var c := if key in w.cells then w.cells[key] else Cell(None, 0, multiset{}, None);
            var w' := Step(cfg, w, e);
            && Enabled(c, e)
            && var f := CellStep(cfg, c, e);
               if e.Inbound? && e.content == "" then w' == w
               else w'.cells == w.cells[key := f.cell] && w'.outbox == w.outbox + f.out && w'.prompts == w.prompts + f.prompts
  {
    hide CellStep, Accepts;
  }

  // ----- the end of a task

  /** An error is recorded and sent with an apology in front, and ends the task. */
  lemma ErrorSays(cfg: Config, c: Cell, e: Event)
    requires CellInv(cfg, c) && e.LlmResult? && c.llm > 0 && e.error.Some?
    ensures var f, t, s := CellStep(cfg, c, e), c.task.value, c.session.value;
            var text := "Sorry, I encountered an error: " + e.error.value;
            && f.out == [Outbound(Final(t.id), t.channel, t.chatId, text)] && f.prompts == []
            && f.cell.task == None && f.cell.llm == 0 && f.cell.tools == multiset{} && f.cell.session.Some?
            && var u := f.cell.session.value;
               if t.noRecord then u.messages == s.messages[..t.countBefore]
               else u.messages == s.messages + [Assistant(text, [])] && u.lastSaved == |u.messages| && u.disk.Some?
  {
    hide Closed;
    var t, s := c.task.value, c.session.value;
    var m := Assistant(SORRY + e.error.value, []);
    SameStart(s.messages, m, t.countBefore);
  }

  /** A text result ends the task with one reply: the confirmation of a reminder scheduled in
      the first turn, else the cleaned text, else the raw text; a recorded task's history gains
      exactly that reply, and nothing when it is empty. */
  lemma TextSays(cfg: Config, c: Cell, e: Event, text: string)
    requires CellInv(cfg, c) && e.LlmResult? && c.llm > 0 && e.error.None? && e.calls == []
    requires c.task.value.turn == 1 && e.reminder.Some? ==> text == e.reminder.value
    requires !(c.task.value.turn == 1 && e.reminder.Some?) && e.cleaned != "" ==> text == e.cleaned
    requires !(c.task.value.turn == 1 && e.reminder.Some?) && e.cleaned == "" ==> text == e.text
    ensures var f, t, s := CellStep(cfg, c, e), c.task.value, c.session.value;
            && f.out == [Outbound(Final(t.id), t.channel, t.chatId, text)] && f.prompts == []
            && f.cell.task == None && f.cell.llm == 0 && f.cell.tools == multiset{} && f.cell.session.Some?
            && var u := f.cell.session.value;
               if t.noRecord then u.messages == s.messages[..t.countBefore]
               else if text == "" then u == s
               else u.messages == s.messages + [Assistant(text, [])] && u.lastSaved == |u.messages| && u.disk.Some?
  {
    hide Closed;
    var t, s := c.task.value, c.session.value;
    SameStart(s.messages, Assistant(text, []), t.countBefore);
    assert s.messages[..|s.messages|] == s.messages;
  }

  // ----- rounds of tool calls

  /** Tool calls: a text that comes along is sent as progress; the recorded message carries
      the calls in order, one to an unknown tool turned into loading the skill of its name; and
      exactly those calls are outstanding. */
  lemma CallsSay(cfg: Config, c: Cell, e: Event, calls: seq<ToolCall>)
    requires CellInv(cfg, c) && e.LlmResult? && c.llm > 0 && e.error.None? && e.calls != []
    requires |calls| == |e.calls|
    requires forall i | 0 <= i < |calls| ::
               var asked := e.calls[i];
               if asked.name in cfg.tools || asked.name == "skill" then calls[i] == asked
               else calls[i] == ToolCall(asked.id, "skill", "{\"action\":\"load\",\"name\":\"" + asked.name + "\"}")
    ensures var f, t, s := CellStep(cfg, c, e), c.task.value, c.session.value;
            && f.out == (if e.cleaned == "" then [] else [Outbound(Progress, t.channel, t.chatId, e.cleaned)])
            && f.prompts == [] && f.cell.llm == 0
            && f.cell.task == Some(t.(state := WaitingTool, pending := |calls|))
            && f.cell.session.Some? && f.cell.session.value.messages == s.messages + [Assistant(e.cleaned, calls)]
            && (!t.noRecord ==> f.cell.session.value.lastSaved == |s.messages| + 1 && f.cell.session.value.disk.Some?)
            && f.cell.tools == multiset(CallList(calls))
  {
    assert ResolveAll(cfg, e.calls) == calls;
    CallsAre(calls);
    hide Closed, CallsOf, ResolveAll;
  }

  /** A tool's outcome is recorded with its call. With more to come nothing else happens; the
      last one asks the LLM again, one turn further, or at the limit, 15 turns or as many as
      configured, ends the task with an apology that is sent and not recorded. */
  lemma ResultSays(cfg: Config, c: Cell, e: Event)
    requires CellInv(cfg, c) && e.ToolResult? && e.call in c.tools
    ensures var f, t, s := CellStep(cfg, c, e), c.task.value, c.session.value;
            var h := s.messages + [Tool(e.outcome, e.call)];
            var limit := if cfg.maxIterations > 0 then cfg.maxIterations else 15;
            && f.cell.session.Some? && f.cell.tools == c.tools - multiset{e.call}
            && var u := f.cell.session.value;
            && (f.cell.task.None? && t.noRecord ==> u.messages == s.messages[..t.countBefore])
            && (f.cell.task.Some? || !t.noRecord ==> u.messages == h)
            && (!t.noRecord ==> u.lastSaved == |h| && u.disk.Some?)
            && if |c.tools| > 1 then
                 f.out == [] && f.prompts == [] && f.cell.llm == 0
                 && f.cell.task == Some(t.(pending := |c.tools| - 1))
               else if t.turn < limit then
                 f.out == [] && f.cell.llm == 1
                 && f.cell.task == Some(t.(state := WaitingLlm, pending := 0, turn := t.turn + 1))
                 && f.prompts == [Prompt(t.id, Window(h, if cfg.memoryWindow > 0 then cfg.memoryWindow else 30))]
               else
                 f.cell.task == None && f.cell.llm == 0 && f.prompts == []
                 && f.out == [Outbound(Final(t.id), t.channel, t.chatId,
                                       "Sorry, I encountered an error: "
                                       + "I reached the maximum number of tool call iterations without completing the task.")]
  {
    hide Closed, Window, Awaits;
    var t, s := c.task.value, c.session.value;
    OneFewer(c.tools, e.call);
    SameStart(s.messages, Tool(e.outcome, e.call), t.countBefore);
  }

  // ----- where everything sent over a run goes

  /** Some message of the run came from this chat and was given this task id. */
  predicate AskedBy(run: seq<Event>, id: string, channel: string, chatId: string) {
    exists k :: 0 <= k < |run| && run[k].Inbound? && run[k].taskId == id
      && run[k].channel == channel && run[k].chatId == chatId
  }

  predicate CameFrom(run: seq<Event>, channel: string, chatId: string) {
    exists k :: 0 <= k < |run| && run[k].Inbound? && run[k].channel == channel && run[k].chatId == chatId
  }

  /** A task answers the chat whose message started it, and so does all that was sent. */
  predicate Routed(w: World, run: seq<Event>) {
    && (forall key | key in w.cells && w.cells[key].task.Some? ::
          var t := w.cells[key].task.value; AskedBy(run, t.id, t.channel, t.chatId))
    && (forall o | o in w.outbox :: SentBack(o, run))
  }

  predicate SentBack(o: Outbound, run: seq<Event>) {
    CameFrom(run, o.channel, o.chatId) && (o.kind.Final? ==> AskedBy(run, o.kind.taskId, o.channel, o.chatId))
  }

  lemma AskedLater(run: seq<Event>, e: Event, id: string, channel: string, chatId: string)
    ensures AskedBy(run, id, channel, chatId) ==> AskedBy(run + [e], id, channel, chatId)
    ensures CameFrom(run, channel, chatId) ==> CameFrom(run + [e], channel, chatId)
    ensures e.Inbound? && e.channel == channel && e.chatId == chatId ==> CameFrom(run + [e], channel, chatId)
    ensures e.Inbound? && e.channel == channel && e.chatId == chatId && e.taskId == id ==>
              AskedBy(run + [e], id, channel, chatId)
  {
    assert forall k | 0 <= k < |run| :: (run + [e])[k] == run[k];
    assert (run + [e])[|run|] == e;
  }

  lemma AskedCame(run: seq<Event>, id: string, channel: string, chatId: string)
    requires AskedBy(run, id, channel, chatId)
    ensures CameFrom(run, channel, chatId)
  {
  }

  /** Who a step's task and messages belong to: the session's task, or the message just taken. */
  predicate Addressed(c: Cell, e: Event, f: Effect) {
    && (f.cell.task.Some? ==>
          var t := f.cell.task.value;
          if c.task.Some? then t.id == c.task.value.id && t.channel == c.task.value.channel && t.chatId == c.task.value.chatId
          else e.Inbound? && t.id == e.taskId && t.channel == e.channel && t.chatId == e.chatId)
    && forall o | o in f.out ::
         if e.Inbound? then !o.kind.Final? && o.channel == e.channel && o.chatId == e.chatId
         else c.task.Some? && o.channel == c.task.value.channel && o.chatId == c.task.value.chatId
              && (o.kind.Final? ==> o.kind.taskId == c.task.value.id)
  }

  lemma InboundAddressed(cfg: Config, c: Cell, e: Event)
    requires CellInv(cfg, c) && e.Inbound?
    ensures Addressed(c, e, OnInbound(cfg, c, e))
  {
    hide Closed, Awaits, Window, Consolidated, Formatted, IsCommand;
  }

  lemma LlmResultAddressed(cfg: Config, c: Cell, e: Event)
    requires CellInv(cfg, c) && e.LlmResult? && c.llm > 0
    ensures Addressed(c, e, OnLlmResult(cfg, c, e))
  {
    hide Closed, Awaits, Recorded, RolledBack, ResolveAll, CallsOf, ReplyText;
  }

  lemma ToolResultAddressed(cfg: Config, c: Cell, e: Event)
    requires CellInv(cfg, c) && e.ToolResult? && e.call in c.tools
    ensures Addressed(c, e, OnToolResult(cfg, c, e))
  {
    hide Closed, Awaits, Window, Recorded, RolledBack;
  }

  lemma StepAddressed(cfg: Config, c: Cell, e: Event)
    requires CellInv(cfg, c) && Enabled(c, e)
    ensures Addressed(c, e, CellStep(cfg, c, e))
  {
    hide Addressed, CellInv, OnInbound, OnLlmResult, OnToolResult;
    match e {
      case Inbound(_, _, _, _, _, _, _) => InboundAddressed(cfg, c, e);
      case LlmResult(_, _, _, _, _, _) => LlmResultAddressed(cfg, c, e);
      case ToolResult(_, _, _) => ToolResultAddressed(cfg, c, e);
    }
  }

  lemma SentIsRouted(w: World, run: seq<Event>, e: Event, f: Effect, o: Outbound)
    requires Routed(w, run) && Addressed(CellOf(w, e.Key()), e, f) && o in f.out
    ensures SentBack(o, run + [e])
  {
    var c := CellOf(w, e.Key());
    hide AskedBy, CameFrom;
    if e.Inbound? {
      AskedLater(run, e, "", o.channel, o.chatId);
    } else {
      AskedLater(run, e, c.task.value.id, o.channel, o.chatId);
      AskedCame(run, c.task.value.id, o.channel, o.chatId);
    }
  }

  lemma TaskIsRouted(w: World, run: seq<Event>, e: Event, f: Effect, key: string)
    requires Routed(w, run) && Addressed(CellOf(w, e.Key()), e, f)
    requires CellOf(Put(w, e, f), key).task.Some?
    ensures var t := CellOf(Put(w, e, f), key).task.value; AskedBy(run + [e], t.id, t.channel, t.chatId)
  {
    hide AskedBy, CameFrom, SentBack, Accepts;
    var t := CellOf(Put(w, e, f), key).task.value;
    AskedLater(run, e, t.id, t.channel, t.chatId);
  }

  lemma StillSentBack(run: seq<Event>, e: Event, o: Outbound)
    requires SentBack(o, run)
    ensures SentBack(o, run + [e])
  {
    hide AskedBy, CameFrom;
    AskedLater(run, e, if o.kind.Final? then o.kind.taskId else "", o.channel, o.chatId);
  }

  lemma PutRoutes(w: World, run: seq<Event>, e: Event, f: Effect)
    requires Routed(w, run) && Addressed(CellOf(w, e.Key()), e, f)
    ensures Routed(Put(w, e, f), run + [e])
  {
    var w' := Put(w, e, f);
    forall key | key in w'.cells && w'.cells[key].task.Some?
      ensures var t := w'.cells[key].task.value; AskedBy(run + [e], t.id, t.channel, t.chatId)
    {
      TaskIsRouted(w, run, e, f, key);
    }
    forall o | o in w'.outbox ensures SentBack(o, run + [e]) {
      if o in w.outbox {
        StillSentBack(run, e, o);
      } else {
        SentIsRouted(w, run, e, f, o);
      }
    }
    hide AskedBy, CameFrom, SentBack, Accepts, Addressed;
  }

  lemma StepRoutes(cfg: Config, w: World, run: seq<Event>, e: Event)
    requires Inv(cfg, w) && Routed(w, run) && CanStep(w, e)
    ensures Routed(Step(cfg, w, e), run + [e])
  {
    var c := CellOf(w, e.Key());
    CellOfInv(cfg, w, e.Key());
    StepAddressed(cfg, c, e);
    hide CellStep, CellInv, Inv, Enabled, Routed, Addressed, Put, SentBack;
    PutRoutes(w, run, e, CellStep(cfg, c, e));
    if Ignored(e) {
      IgnoredRoutes(w, run, e);
    }
  }

  lemma IgnoredRoutes(w: World, run: seq<Event>, e: Event)
    requires Routed(w, run)
    ensures Routed(w, run + [e])
  {
    forall key | key in w.cells && w.cells[key].task.Some?
      ensures var t := w.cells[key].task.value; AskedBy(run + [e], t.id, t.channel, t.chatId)
    {
      var t := w.cells[key].task.value;
      AskedLater(run, e, t.id, t.channel, t.chatId);
    }
    forall o | o in w.outbox ensures SentBack(o, run + [e]) {
      StillSentBack(run, e, o);
    }
    hide AskedBy, CameFrom, SentBack;
  }

  lemma {:induction false} RunRoutes(cfg: Config, w: World, done: seq<Event>, run: seq<Event>)
    requires Inv(cfg, w) && Routed(w, done) && IsRun(cfg, w, run)
    ensures Routed(After(cfg, w, run), done + run)
    decreases |run|
  {
    hide Inv, Routed, Step;
    if run == [] {
      assert done + run == done;
    } else {
      StepKeepsInv(cfg, w, run[0]);
      StepRoutes(cfg, w, done, run[0]);
      assert done + [run[0]] + run[1..] == done + run;
      RunRoutes(cfg, Step(cfg, w, run[0]), done + [run[0]], run[1..]);
    }
  }

  /** Over every run, whatever is sent goes to a chat a message came from, and a final reply
      to the very chat whose message started the task it ends. */
  lemma EveryReplyIsRouted(cfg: Config, run: seq<Event>, o: Outbound)
    requires IsRun(cfg, START, run) && o in After(cfg, START, run).outbox
    ensures exists k :: 0 <= k < |run| && run[k].Inbound? && run[k].channel == o.channel && run[k].chatId == o.chatId
                        && (o.kind.Final? ==> run[k].taskId == o.kind.taskId)
  {
    RunRoutes(cfg, START, [], run);
    assert [] + run == run;
    hide Inv, IsRun, After;
    assert SentBack(o, run);
  }
}
