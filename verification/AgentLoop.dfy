/** The list of active tasks, walked and updated in place; it refines a table by session. */
module Orchestrator {
  import opened Sequences
  import opened Wrappers
  import opened Protocol

  /** What a walk from the head finds for each session key. */
  function ToTable(tasks: seq<Task>): map<string, Task> {
    if tasks == [] then map[] else ToTable(tasks[1..])[tasks[0].key := tasks[0]]
  }

  predicate Distinct(tasks: seq<Task>) {
    forall i, j | 0 <= i < j < |tasks| :: tasks[i].key != tasks[j].key && tasks[i].id != tasks[j].id
  }

  lemma {:induction false} TableHasTask(tasks: seq<Task>, i: nat)
    requires Distinct(tasks) && i < |tasks|
    ensures tasks[i].key in ToTable(tasks) && ToTable(tasks)[tasks[i].key] == tasks[i]
  {
    if i > 0 {
      TableHasTask(tasks[1..], i - 1);
    }
  }

  lemma {:induction false} TableOnlyTasks(tasks: seq<Task>, key: string)
    requires key in ToTable(tasks)
    ensures exists i :: 0 <= i < |tasks| && tasks[i].key == key && tasks[i] == ToTable(tasks)[key]
  {
    if tasks[0].key == key {
      assert tasks[0] == ToTable(tasks)[key];
    } else {
      TableOnlyTasks(tasks[1..], key);
      var i :| 0 <= i < |tasks[1..]| && tasks[1..][i].key == key && tasks[1..][i] == ToTable(tasks[1..])[key];
      assert tasks[i + 1].key == key;
    }
  }

  lemma {:induction false} TableUpdate(tasks: seq<Task>, i: nat, t: Task)
    requires Distinct(tasks) && i < |tasks| && t.key == tasks[i].key
    ensures ToTable(tasks[i := t]) == ToTable(tasks)[t.key := t]
  {
    if i == 0 {
      assert tasks[0 := t][1..] == tasks[1..];
    } else {
      TableUpdate(tasks[1..], i - 1, t);
      assert tasks[i := t][1..] == tasks[1..][i - 1 := t];
    }
  }

  lemma {:induction false} TableAppend(tasks: seq<Task>, t: Task)
    requires forall i | 0 <= i < |tasks| :: tasks[i].key != t.key
    ensures ToTable(tasks + [t]) == ToTable(tasks)[t.key := t]
  {
    if tasks == [] {
      assert (tasks + [t])[1..] == [];
    } else {
      TableAppend(tasks[1..], t);
      assert (tasks + [t])[1..] == tasks[1..] + [t];
    }
  }

  lemma {:induction false} TableRemove(tasks: seq<Task>, i: nat)
    requires Distinct(tasks) && i < |tasks|
    ensures ToTable(Without(tasks, i)) == ToTable(tasks) - {tasks[i].key}
  {
    var rest := Without(tasks, i);
    if i == 0 {
      assert rest == tasks[1..];
      if tasks[0].key in ToTable(tasks[1..]) {
        TableOnlyTasks(tasks[1..], tasks[0].key);
      }
    } else {
      TableRemove(tasks[1..], i - 1);
      assert rest[1..] == Without(tasks[1..], i - 1);
    }
  }

  function IdsOf(tasks: seq<Task>): set<string> {
    set t | t in tasks :: t.id
  }

  lemma IdsUpdate(tasks: seq<Task>, i: nat, t: Task)
    requires i < |tasks| && t.id == tasks[i].id
    ensures IdsOf(tasks[i := t]) == IdsOf(tasks)
  {
    forall u | u in tasks ensures u.id in IdsOf(tasks[i := t]) {
      var j :| 0 <= j < |tasks| && tasks[j] == u;
      assert tasks[i := t][j].id == u.id && tasks[i := t][j] in tasks[i := t];
    }
  }

  lemma OthersStay(tasks: seq<Task>, i: nat, j: nat)
    requires i < |tasks| && j < |tasks| && j != i
    ensures tasks[j] in Without(tasks, i)
  {
    WithoutAt(tasks, i);
    assert Without(tasks, i)[if j < i then j else j - 1] == tasks[j];
  }

  lemma StayedThere(tasks: seq<Task>, i: nat, u: Task)
    requires Distinct(tasks) && i < |tasks| && u in Without(tasks, i)
    ensures u in tasks && u.id != tasks[i].id
  {
    WithoutAt(tasks, i);
    var j :| 0 <= j < |Without(tasks, i)| && Without(tasks, i)[j] == u;
    assert u == tasks[if j < i then j else j + 1];
  }

  lemma IdsRemove(tasks: seq<Task>, i: nat)
    requires Distinct(tasks) && i < |tasks|
    ensures IdsOf(Without(tasks, i)) == IdsOf(tasks) - {tasks[i].id}
  {
    hide Without;
    forall u | u in tasks && u.id != tasks[i].id ensures u in Without(tasks, i) {
      var j :| 0 <= j < |tasks| && tasks[j] == u;
      OthersStay(tasks, i, j);
    }
    forall u | u in Without(tasks, i) ensures u in tasks && u.id != tasks[i].id {
      StayedThere(tasks, i, u);
    }
    hide Distinct;
  }

  lemma DistinctRemove(tasks: seq<Task>, i: nat)
    requires Distinct(tasks) && i < |tasks|
    ensures Distinct(Without(tasks, i))
  {
    WithoutAt(tasks, i);
    hide Without;
  }

  function OneTurnOn(t: Task): (r: Task)
    ensures r.key == t.key && r.id == t.id
  {
    t.(turn := t.turn + 1)
  }

  lemma SnocAt<T>(s: seq<T>, x: T)
    ensures |s + [x]| == |s| + 1 && (s + [x])[|s|] == x
    ensures forall k | 0 <= k < |s| :: (s + [x])[k] == s[k]
  {
  }

  lemma PutTwice(table: map<string, Task>, key: string, first: Task, second: Task)
    ensures table[key := first][key] == first
    ensures table[key := first][key := second] == table[key := second]
  {
  }

  class TaskNode {
    var task: Task
    var next: TaskNode?

    constructor (task: Task)
      ensures this.task == task && next == null
    {
      this.task, next := task, null;
    }
  }

  class SessionOrchestrator {
    var head: TaskNode?
    ghost var spine: seq<TaskNode>
    ghost var nodes: set<TaskNode>
    ghost var tasks: seq<Task>

    ghost function At(i: nat): TaskNode?
      reads this`spine
    {
      if i < |spine| then spine[i] else null
    }

    /** The linked nodes hold the tasks, in order. */
    ghost predicate Linked()
      reads this`head, this`spine, this`nodes, this`tasks, nodes
    {
      && |spine| == |tasks| && head == At(0)
      && (forall i, j | 0 <= i < j < |spine| :: spine[i] != spine[j])
      && (forall i | 0 <= i < |spine| ::
            spine[i] in nodes && spine[i].task == tasks[i] && spine[i].next == At(i + 1))
    }

    ghost predicate Valid()
      reads this`head, this`spine, this`nodes, this`tasks, nodes
    {
      Distinct(tasks) && Linked()
    }

    ghost function Table(): map<string, Task>
      reads this`tasks
    {
      ToTable(tasks)
    }

    ghost function Ids(): set<string>
      reads this`tasks
    {
      IdsOf(tasks)
    }

    constructor ()
      ensures Valid() && tasks == [] && Table() == map[] && Ids() == {} && nodes == {}
    {
      head, spine, nodes, tasks := null, [], {}, [];
    }

    lemma AtNode(i: nat)
      requires Linked() && i <= |tasks|
      ensures |spine| == |tasks| && (At(i) == null <==> i == |tasks|)
      ensures i < |tasks| ==> At(i) == spine[i] && spine[i] in nodes && spine[i].task == tasks[i] && spine[i].next == At(i + 1)
    {
    }

    method FindByKey(key: string) returns (node: TaskNode?, ghost i: nat)
      requires Valid()
      ensures i <= |tasks| && node == At(i)
      ensures node != null ==> i < |tasks| && node.task == tasks[i] && tasks[i].key == key
                               && key in Table() && Table()[key] == tasks[i]
      ensures node == null ==> key !in Table()
    {
      node, i := head, 0;
      AtNode(0);
      hide Linked, At, Distinct, ToTable;
      while node != null && node.task.key != key
        invariant i <= |tasks| && node == At(i)
        invariant forall j | 0 <= j < i :: tasks[j].key != key
        decreases |tasks| - i
      {
        AtNode(i);
        assert tasks[i].key != key;
        node, i := node.next, i + 1;
      }
      AtNode(i);
      if node != null {
        TableHasTask(tasks, i);
      } else if key in Table() {
        TableOnlyTasks(tasks, key);
      }
    }

    method SnapshotTask(key: string) returns (t: Option<Task>)
      requires Valid()
      ensures t == if key in Table() then Some(Table()[key]) else None
    {
      var node, _ := FindByKey(key);
      t := if node != null then Some(node.task) else None;
    }

    method LastNode() returns (node: TaskNode)
      requires Linked() && head != null
      ensures |spine| > 0 && node == spine[|spine| - 1] && node in nodes
    {
      node := head;
      ghost var i: nat := 0;
      AtNode(0);
      hide Linked, At;
      while node.next != null
        invariant i < |tasks| == |spine| && node == spine[i] && node in nodes
        decreases |tasks| - i
      {
        AtNode(i);
        AtNode(i + 1);
        node, i := node.next, i + 1;
      }
      AtNode(i);
      AtNode(i + 1);
    }

    /** Links a new node behind the last one. */
    method Append(t: Task)
      requires Linked()
      modifies this`head, this`spine, this`nodes, this`tasks, nodes
      ensures Linked() && tasks == old(tasks) + [t]
      ensures forall n | n in nodes && n !in old(nodes) :: fresh(n)
    {
      ghost var was, ts := spine, tasks;
      var node := new TaskNode(t);
      if head == null {
        head := node;
      } else {
        var last := LastNode();
        last.next := node;
      }
      nodes := nodes + {node};
      spine, tasks := was + [node], ts + [t];
      SnocAt(was, node);
      SnocAt(ts, t);
      forall k | 0 <= k < |spine| ensures spine[k].task == tasks[k] && spine[k].next == At(k + 1) {
        if k + 1 < |was| {
          assert was[k].next == old(At(k + 1));
        }
      }
    }

    /** A task is added whatever is there; with a new key and id the table gains it. */
    method AddTask(t: Task)
      requires Linked()
      modifies this`head, this`spine, this`nodes, this`tasks, nodes
      ensures Linked() && tasks == old(tasks) + [t]
      ensures forall n | n in nodes && n !in old(nodes) :: fresh(n)
      ensures old(Valid()) && t.key !in old(Table()) && t.id !in old(Ids()) ==>
                Valid() && Table() == old(Table())[t.key := t] && Ids() == old(Ids()) + {t.id}
    {
      ghost var was := tasks;
      Append(t);
      hide Linked;
      if Distinct(was) && t.key !in ToTable(was) && t.id !in IdsOf(was) {
        AddedToTable(was, t);
      }
    }

    method Unlink(prev: TaskNode?, node: TaskNode, ghost i: nat)
      requires Linked() && i < |spine| && node == spine[i]
      requires prev == if i == 0 then null else spine[i - 1]
      modifies this`head, this`spine, this`tasks, prev
      ensures Linked() && tasks == Without(old(tasks), i)
    {
      ghost var was := spine;
      if prev != null {
        prev.next := node.next;
      } else {
        head := node.next;
      }
      spine, tasks := Without(spine, i), Without(tasks, i);
      WithoutAt(was, i);
      WithoutAt(old(tasks), i);
      forall k | 0 <= k < |spine| ensures spine[k].task == tasks[k] && spine[k].next == At(k + 1) {
        if k + 1 >= i {
          assert was[k + 1].next == old(At(k + 2));
        }
      }
    }

    method RemoveTask(id: string)
      requires Valid()
      modifies this`head, this`spine, this`tasks, nodes
      ensures Valid()
      ensures Ids() == old(Ids()) - {id}
      ensures forall key | key in old(Table()) && old(Table())[key].id == id :: Table() == old(Table()) - {key}
      ensures id !in old(Ids()) ==> tasks == old(tasks)
    {
      ghost var was := tasks;
      var prev, current, i := FindById(id);
      hide Linked, Distinct, ToTable, IdsOf, At;
      RemovedFromTable(was, id, i);
      if current != null {
        AtNode(i);
        Unlink(prev, current, i);
      }
    }

    /** The walk of a removal, with the node before it. */
    method FindById(id: string) returns (prev: TaskNode?, current: TaskNode?, ghost i: nat)
      requires Linked()
      ensures i <= |tasks| && current == At(i) && prev == (if i == 0 then null else At(i - 1))
      ensures prev != null ==> prev in nodes
      ensures (current == null <==> i == |tasks|) && (i < |tasks| ==> tasks[i].id == id)
      ensures forall j | 0 <= j < i :: tasks[j].id != id
    {
      prev, current, i := null, head, 0;
      AtNode(0);
      hide Linked, At;
      while current != null && current.task.id != id
        invariant i <= |tasks| && current == At(i) && prev == (if i == 0 then null else At(i - 1))
        invariant prev != null ==> prev in nodes
        invariant forall j | 0 <= j < i :: tasks[j].id != id
        decreases |tasks| - i
      {
        AtNode(i);
        assert tasks[i].id != id;
        prev, current, i := current, current.next, i + 1;
      }
      AtNode(i);
    }

    /** Writes the fields of a task back; keys and ids never change. */
    method Store(node: TaskNode, ghost i: nat, t: Task)
      requires Valid() && i < |tasks| && node == At(i) && t.key == tasks[i].key && t.id == tasks[i].id
      modifies this`tasks, node
      ensures Valid() && Table() == old(Table())[t.key := t]
      ensures Ids() == old(Ids())
    {
      TableUpdate(tasks, i, t);
      IdsUpdate(tasks, i, t);
      node.task := t;
      tasks := tasks[i := t];
    }

    method UpdateState(key: string, state: TaskState)
      requires Valid()
      modifies this`tasks, nodes
      ensures Valid() && Ids() == old(Ids())
      ensures Table() == if key in old(Table()) then old(Table())[key := old(Table())[key].(state := state)]
                         else old(Table())
    {
      var node, i := FindByKey(key);
      AtNode(i);
      hide Valid, ToTable, IdsOf;
      if node != null {
        Store(node, i, node.task.(state := state));
      }
    }

    /** Adds a task that is idle at turn zero, and has it wait for its first LLM result. */
    method Begin(t: Task)
      requires Valid() && t.key !in Table() && t.id !in Ids()
      modifies this`head, this`spine, this`nodes, this`tasks, nodes
      ensures Valid() && Ids() == old(Ids()) + {t.id}
      ensures Table() == old(Table())[t.key := OneTurnOn(t.(state := WaitingLlm))]
      ensures forall n | n in nodes && n !in old(nodes) :: fresh(n)
    {
      hide *;
      ghost var was, started := Table(), t.(state := WaitingLlm);
      LinkedToo();
      AddTask(t);
      UpdateState(t.key, WaitingLlm);
      PutTwice(was, t.key, t, started);
      IncrementTurn(t.key);
      PutTwice(was, t.key, started, OneTurnOn(started));
    }

    lemma LinkedToo()
      requires Valid()
      ensures Linked()
    {
    }

    method UpdatePending(key: string, count: int)
      requires Valid()
      modifies this`tasks, nodes
      ensures Valid() && Ids() == old(Ids())
      ensures Table() == if key in old(Table()) then old(Table())[key := old(Table())[key].(pending := count)]
                         else old(Table())
    {
      var node, i := FindByKey(key);
      AtNode(i);
      hide Valid, ToTable, IdsOf;
      if node != null {
        Store(node, i, node.task.(pending := count));
      }
    }

    method DecrementPending(key: string) returns (remaining: int)
      requires Valid()
      modifies this`tasks, nodes
      ensures Valid() && Ids() == old(Ids())
      ensures key in old(Table()) ==> remaining == old(Table())[key].pending - 1
      ensures key !in old(Table()) ==> remaining == -1
      ensures Table() == if key in old(Table()) then old(Table())[key := old(Table())[key].(pending := remaining)]
                         else old(Table())
    {
      remaining := -1;
      var node, i := FindByKey(key);
      AtNode(i);
      hide Valid, ToTable, IdsOf;
      if node != null {
        remaining := node.task.pending - 1;
        Store(node, i, node.task.(pending := remaining));
      }
    }

    method IncrementTurn(key: string)
      requires Valid()
      modifies this`tasks, nodes
      ensures Valid() && Ids() == old(Ids())
      ensures Table() == if key in old(Table())
                         then old(Table())[key := OneTurnOn(old(Table())[key])]
                         else old(Table())
    {
      var node, i := FindByKey(key);
      AtNode(i);
      hide Valid, ToTable, IdsOf, OneTurnOn;
      if node != null {
        Store(node, i, OneTurnOn(node.task));
      }
    }
  }

  lemma AddedToTable(tasks: seq<Task>, t: Task)
    requires Distinct(tasks) && t.key !in ToTable(tasks) && t.id !in IdsOf(tasks)
    ensures Distinct(tasks + [t]) && ToTable(tasks + [t]) == ToTable(tasks)[t.key := t]
    ensures IdsOf(tasks + [t]) == IdsOf(tasks) + {t.id}
  {
    assert forall i | 0 <= i < |tasks| :: tasks[i] in tasks;
    forall i | 0 <= i < |tasks| ensures tasks[i].key != t.key {
      TableHasTask(tasks, i);
    }
    TableAppend(tasks, t);
  }

  /** Unlinking the task at `i`, the first of its id, or nothing when there is none. */
  lemma RemovedFromTable(tasks: seq<Task>, id: string, i: nat)
    requires Distinct(tasks) && i <= |tasks| && (i < |tasks| ==> tasks[i].id == id)
    requires forall j | 0 <= j < i :: tasks[j].id != id
    ensures var left := if i < |tasks| then Without(tasks, i) else tasks;
            && Distinct(left) && IdsOf(left) == IdsOf(tasks) - {id}
            && forall key | key in ToTable(tasks) && ToTable(tasks)[key].id == id ::
                 ToTable(left) == ToTable(tasks) - {key}
    ensures i < |tasks| ==> id in IdsOf(tasks)
  {
    forall key | key in ToTable(tasks) && ToTable(tasks)[key].id == id
      ensures i < |tasks| && key == tasks[i].key
    {
      TableOnlyTasks(tasks, key);
      hide ToTable;
    }
    if i < |tasks| {
      assert tasks[i] in tasks;
      hide Distinct, ToTable, Without;
      TableRemove(tasks, i);
      IdsRemove(tasks, i);
      DistinctRemove(tasks, i);
    }
  }
}

/** The processing worker: each event is handled in one step, on concrete sessions and the
    task list, and is proved to be the protocol's step. */
module AgentLoop {
  import opened Wrappers
  import opened History
  import opened SessionStore
  import opened Protocol
  import opened Runs
  import opened Orchestrator

  /** The loop's tables, as values. */
  datatype Tables = Tables(
    sessions: map<string, SessionState>,
    tasks: map<string, Task>,
    llm: multiset<string>,
    tools: map<string, multiset<Call>>)

  function CellIn(t: Tables, key: string): Cell {
    Cell(if key in t.tasks then Some(t.tasks[key]) else None,
         t.llm[key],
         if key in t.tools then t.tools[key] else multiset{},
         if key in t.sessions then Some(t.sessions[key]) else None)
  }

  function Cells(t: Tables): map<string, Cell> {
    map key | key in t.sessions :: CellIn(t, key)
  }

  /** Nothing is kept for a key that has no session, and tasks are filed under their key. */
  predicate Filed(t: Tables) {
    && (forall key | key in t.tasks :: key in t.sessions && t.tasks[key].key == key && t.tasks[key].state != Idle)
    && (forall key | key in t.llm :: key in t.sessions)
    && (forall key | key in t.tools :: key in t.sessions)
  }

  /** The tables differ at most in one session. */
  ghost predicate SameBut(t: Tables, u: Tables, key: string) {
    forall k | k != key ::
      && (k in t.sessions <==> k in u.sessions) && (k in t.sessions ==> t.sessions[k] == u.sessions[k])
      && (k in t.tasks <==> k in u.tasks) && (k in t.tasks ==> t.tasks[k] == u.tasks[k])
      && (k in t.tools <==> k in u.tools) && (k in t.tools ==> t.tools[k] == u.tools[k])
      && t.llm[k] == u.llm[k]
  }

  lemma CellsPut(t: Tables, u: Tables, key: string)
    requires SameBut(t, u, key) && key in u.sessions
    ensures Cells(u) == Cells(t)[key := CellIn(u, key)]
  {
  }

  /** One session moved to `cell`; every other one is untouched. */
  ghost predicate Became(t: Tables, u: Tables, key: string, cell: Cell) {
    Filed(u) && SameBut(t, u, key) && key in u.sessions && CellIn(u, key) == cell
  }

  lemma BecameThen(t: Tables, u: Tables, v: Tables, key: string, c: Cell, d: Cell)
    requires Became(t, u, key, c) && Became(u, v, key, d)
    ensures Became(t, v, key, d)
  {
    hide Filed, CellIn;
  }

  lemma BecameGives(t: Tables, u: Tables, key: string, cell: Cell)
    requires Became(t, u, key, cell)
    ensures Filed(u) && key in u.sessions && CellIn(u, key) == cell
  {
  }

  lemma BecameSame(t: Tables, key: string)
    requires Filed(t) && key in t.sessions
    ensures Became(t, t, key, CellIn(t, key))
  {
  }

  lemma SessionBecomes(t: Tables, key: string, s: SessionState)
    requires Filed(t)
    ensures Became(t, t.(sessions := t.sessions[key := s]), key, CellIn(t, key).(session := Some(s)))
  {
  }

  lemma TaskBecomes(t: Tables, key: string, task: Task)
    requires Filed(t) && key in t.sessions && task.key == key && task.state != Idle
    ensures Became(t, t.(tasks := t.tasks[key := task]), key, CellIn(t, key).(task := Some(task)))
  {
  }

  lemma TaskUpdated(t: Tables, key: string, task: Task)
    requires Filed(t) && key in t.tasks && task.key == t.tasks[key].key
    requires task.state != Idle || task.state == t.tasks[key].state
    ensures Became(t, t.(tasks := t.tasks[key := task]), key, CellIn(t, key).(task := Some(task)))
  {
  }

  lemma TaskGone(t: Tables, key: string)
    requires Filed(t) && key in t.sessions
    ensures Became(t, t.(tasks := t.tasks - {key}), key, CellIn(t, key).(task := None))
  {
  }

  lemma LlmBecomes(t: Tables, key: string, n: nat)
    requires Filed(t) && key in t.sessions
    ensures Became(t, t.(llm := t.llm[key := n]), key, CellIn(t, key).(llm := n))
  {
  }

  lemma TaskHasSession(t: Tables, key: string)
    requires Filed(t)
    ensures CellIn(t, key).task.Some? ==> CellIn(t, key).session.Some?
    ensures CellIn(t, key).tools != multiset{} ==> key in t.sessions
  {
  }

  lemma LlmKnown(t: Tables, key: string)
    requires Filed(t) && t.llm[key] > 0
    ensures key in t.sessions && CellIn(t, key).llm == t.llm[key]
  {
    assert key in t.llm;
  }

  lemma ToolsBecome(t: Tables, key: string, left: multiset<Call>)
    requires Filed(t) && key in t.sessions
    ensures Became(t, t.(tools := t.tools[key := left]), key, CellIn(t, key).(tools := left))
  {
  }

  lemma CellsFind(t: Tables, w: World, key: string)
    requires Filed(t) && w.cells == Cells(t)
    ensures CellOf(w, key) == CellIn(t, key)
  {
    if key !in t.sessions {
      assert key !in t.tasks && t.llm[key] == 0;
    }
  }

  class Loop {
    const cfg: Config
    const orchestrator: SessionOrchestrator
    var sessions: map<string, Session>
    var llm: multiset<string>
    var tools: map<string, multiset<Call>>
    var outbox: seq<Outbound>
    var prompts: seq<Prompt>
    ghost var issued: set<string>

    ghost function SessionObjects(): set<Session>
      reads this`sessions
    {
      set key | key in sessions :: sessions[key]
    }

    ghost function Heap(): set<object>
      reads this, orchestrator
    {
      {this, orchestrator} + orchestrator.nodes + SessionObjects()
    }

    ghost function SessionTable(): map<string, SessionState>
      reads this`sessions, SessionObjects()
    {
      map key | key in sessions :: sessions[key].View()
    }

    ghost function State(): Tables
      reads this`sessions, this`llm, this`tools, orchestrator, SessionObjects()
    {
      Tables(SessionTable(), orchestrator.Table(), llm, tools)
    }

    ghost predicate Valid()
      reads this`sessions, this`issued, orchestrator, orchestrator.nodes
    {
      && orchestrator.Valid()
      && (forall key | key in sessions :: sessions[key].key == key)
      && orchestrator.Ids() <= issued
    }

    ghost function View(): World
      reads Heap()
    {
      World(Cells(State()), outbox, prompts, issued)
    }

    constructor (cfg: Config)
      ensures Valid() && Filed(State()) && this.cfg == cfg && View() == START
      ensures fresh(Heap())
    {
      this.cfg := cfg;
      orchestrator := new SessionOrchestrator();
      sessions, llm, tools, outbox, prompts, issued := map[], multiset{}, map[], [], [], {};
    }

    lemma CellSession(key: string)
      requires key in sessions
      ensures CellIn(State(), key).session == Some(sessions[key].View())
    {
    }

    /** Only the session under `key` has changed since `t`. */
    ghost predicate OnlySessionMoved(t: Tables, key: string)
      reads this, orchestrator, SessionObjects()
    {
      && key in sessions && sessions.Keys == t.sessions.Keys
      && (forall k | k in sessions && k != key :: sessions[k].View() == t.sessions[k])
      && orchestrator.Table() == t.tasks && llm == t.llm && tools == t.tools
    }

    lemma SessionMoved(t: Tables, key: string)
      requires Filed(t) && OnlySessionMoved(t, key)
      ensures Became(t, State(), key, CellIn(t, key).(session := Some(sessions[key].View())))
    {
      hide Became, Filed, ToTable;
      SessionBecomes(t, key, sessions[key].View());
      assert State() == t.(sessions := t.sessions[key := sessions[key].View()]);
    }

    // ----- operations on one session

    method GetSession(key: string)
      requires Valid() && Filed(State())
      modifies this`sessions
      ensures Valid() && key in sessions && (forall o | o in Heap() && o !in old(Heap()) :: fresh(o))
      ensures sessions == old(sessions) || (key !in old(sessions) && sessions == old(sessions)[key := sessions[key]])
      ensures var c := CellIn(old(State()), key);
              Became(old(State()), State(), key, c.(session := Some(SessionOr(c, key))))
    {
      hide Became, Filed, ToTable, Distinct, IdsOf, SessionOrchestrator.Linked;
      ghost var t := State();
      if key !in sessions {
        var session := new Session(key);
        sessions := sessions[key := session];
      }
      SessionBecomes(t, key, SessionOr(CellIn(t, key), key));
      assert State() == t.(sessions := t.sessions[key := SessionOr(CellIn(t, key), key)]);
    }

    /** Adds a message and saves, unless the task leaves no record. */
    method RecordMessage(key: string, m: Message, noRecord: bool)
      requires Valid() && Filed(State()) && key in sessions
      modifies sessions[key]
      ensures Valid()
      ensures var c := CellIn(old(State()), key);
              Became(old(State()), State(), key, c.(session := Some(Recorded(c.session.value, m, noRecord))))
    {
      hide WithMessage, AfterSave, Became, Filed, ToTable, Distinct, IdsOf, SessionOrchestrator.Linked;
      ghost var t := State();
      var session := sessions[key];
      session.AddMessage(m);
      if !noRecord {
        session.Save();
      }
      SessionMoved(t, key);
    }

    /** Adds the user's message and consolidates if that is due. */
    method AskMessage(key: string, m: Message, memoryOk: bool)
      requires Valid() && Filed(State()) && key in sessions
      modifies sessions[key]
      ensures Valid()
      ensures var c := CellIn(old(State()), key);
              Became(old(State()), State(), key, c.(session :=
                Some(Consolidated(WithMessage(c.session.value, m), cfg.ConsolidationWindow(), memoryOk))))
    {
      hide WithMessage, Consolidated, Became, Filed, ToTable, Distinct, IdsOf, SessionOrchestrator.Linked;
      ghost var t := State();
      var session := sessions[key];
      session.AddMessage(m);
      session.MaybeAutoConsolidate(cfg.ConsolidationWindow(), memoryOk);
      SessionMoved(t, key);
    }

    /** Files a task, idle at turn zero, then has it wait for its first LLM result. */
    method StartTask(e: Event, countBefore: nat)
      requires Valid() && Filed(State()) && e.Inbound? && e.Key() in sessions
      requires CellIn(State(), e.Key()).task == None && e.taskId !in issued
      modifies this`issued, orchestrator, orchestrator.nodes
      ensures Valid() && issued == old(issued) + {e.taskId}
      ensures forall n | n in orchestrator.nodes && n !in old(orchestrator.nodes) :: fresh(n)
      ensures Became(old(State()), State(), e.Key(), CellIn(old(State()), e.Key()).(task := Some(NewTask(e, countBefore))))
    {
      hide Became, Filed, ToTable, Distinct, IdsOf, SessionOrchestrator.Linked;
      ghost var t := State();
      ghost var kept := SessionTable();
      var key := e.Key();
      orchestrator.Begin(Task(e.taskId, key, e.channel, e.chatId, Idle, 0, 0, e.noRecord, countBefore));
      issued := issued + {e.taskId};
      assert orchestrator.Table() == t.tasks[key := NewTask(e, countBefore)];
      TaskBecomes(t, key, NewTask(e, countBefore));
      assert SessionTable() == kept;
      assert State() == t.(tasks := t.tasks[key := NewTask(e, countBefore)]);
    }

    method StoreTools(key: string, left: multiset<Call>)
      requires Valid() && Filed(State()) && key in sessions
      modifies this`tools
      ensures Valid()
      ensures Became(old(State()), State(), key, CellIn(old(State()), key).(tools := left))
    {
      hide Became, Filed, ToTable, Distinct, IdsOf, SessionOrchestrator.Linked;
      ghost var t := State();
      ToolsBecome(t, key, left);
      tools := tools[key := left];
      assert State() == t.(tools := t.tools[key := left]);
    }

    method AwaitTools(key: string, pending: nat)
      requires Valid() && Filed(State()) && CellIn(State(), key).task.Some?
      modifies orchestrator`tasks, orchestrator.nodes
      ensures Valid()
      ensures var c := CellIn(old(State()), key);
              Became(old(State()), State(), key, c.(task := Some(c.task.value.(state := WaitingTool, pending := pending))))
    {
      hide Became, Filed, ToTable, Distinct, IdsOf, SessionOrchestrator.Linked;
      ghost var t := State();
      ghost var kept := SessionTable();
      ghost var task := t.tasks[key].(state := WaitingTool, pending := pending);
      orchestrator.UpdateState(key, WaitingTool);
      orchestrator.UpdatePending(key, pending);
      assert SessionTable() == kept;
      assert State() == t.(tasks := t.tasks[key := task]);
      TaskUpdated(t, key, task);
    }

    method CountResult(key: string) returns (remaining: int)
      requires Valid() && Filed(State()) && CellIn(State(), key).task.Some?
      modifies orchestrator`tasks, orchestrator.nodes
      ensures Valid()
      ensures var c := CellIn(old(State()), key);
              && remaining == c.task.value.pending - 1
              && Became(old(State()), State(), key, c.(task := Some(c.task.value.(pending := remaining))))
    {
      hide Became, Filed, ToTable, Distinct, IdsOf, SessionOrchestrator.Linked;
      ghost var t := State();
      ghost var kept := SessionTable();
      remaining := orchestrator.DecrementPending(key);
      assert SessionTable() == kept;
      assert State() == t.(tasks := t.tasks[key := t.tasks[key].(pending := remaining)]);
      TaskUpdated(t, key, t.tasks[key].(pending := remaining));
    }

    method NextTurn(key: string)
      requires Valid() && Filed(State()) && CellIn(State(), key).task.Some?
      modifies orchestrator`tasks, orchestrator.nodes
      ensures Valid()
      ensures var c := CellIn(old(State()), key);
              Became(old(State()), State(), key, c.(task :=
                Some(c.task.value.(turn := c.task.value.turn + 1, state := WaitingLlm))))
    {
      hide Became, Filed, ToTable, Distinct, IdsOf, SessionOrchestrator.Linked;
      ghost var t := State();
      ghost var kept := SessionTable();
      ghost var task := t.tasks[key].(turn := t.tasks[key].turn + 1, state := WaitingLlm);
      orchestrator.IncrementTurn(key);
      orchestrator.UpdateState(key, WaitingLlm);
      assert SessionTable() == kept;
      assert State() == t.(tasks := t.tasks[key := task]);
      TaskUpdated(t, key, task);
    }

    method UnlinkTask(t: Task)
      requires Valid() && Filed(State()) && t.key in sessions
      requires CellIn(State(), t.key).task.Some? && CellIn(State(), t.key).task.value.id == t.id
      modifies orchestrator`head, orchestrator`spine, orchestrator`tasks, orchestrator.nodes
      ensures Valid()
      ensures Became(old(State()), State(), t.key, CellIn(old(State()), t.key).(task := None))
    {
      hide Became, Filed, ToTable, Distinct, IdsOf, SessionOrchestrator.Linked;
      ghost var before := State();
      ghost var kept := SessionTable();
      orchestrator.RemoveTask(t.id);
      assert SessionTable() == kept;
      assert State() == before.(tasks := before.tasks - {t.key});
      TaskGone(before, t.key);
    }

    method Rollback(key: string, to: nat)
      requires Valid() && Filed(State()) && key in sessions
      modifies sessions[key]
      ensures Valid()
      ensures var c := CellIn(old(State()), key);
              Became(old(State()), State(), key, c.(session := Some(RolledBack(c.session.value, to))))
    {
      hide RolledBack, Became, Filed, ToTable, Distinct, IdsOf, SessionOrchestrator.Linked;
      ghost var t := State();
      sessions[key].RollbackMessages(to);
      SessionMoved(t, key);
    }

    /** Rolls an unrecorded task's messages back, then unlinks the task. */
    method RemoveActiveTask(t: Task)
      requires Valid() && Filed(State()) && t.key in sessions && CellIn(State(), t.key).task.Some?
      requires var u := CellIn(State(), t.key).task.value;
               u.id == t.id && u.noRecord == t.noRecord && u.countBefore == t.countBefore
      modifies orchestrator`head, orchestrator`spine, orchestrator`tasks, orchestrator.nodes, sessions[t.key]
      ensures Valid()
      ensures Became(old(State()), State(), t.key, Finish(CellIn(old(State()), t.key)))
    {
      hide Became, Filed, SameBut, CellIn, State, ToTable, Distinct, IdsOf, SessionOrchestrator.Linked, SessionTable, RolledBack;
      ghost var t0, c0 := State(), CellIn(State(), t.key);
      if t.noRecord {
        CellTask(t.key);
        CellSession(t.key);
        Rollback(t.key, t.countBefore);
        ghost var t1, c1 := State(), c0.(session := Some(RolledBack(c0.session.value, t.countBefore)));
        BecameGives(t0, t1, t.key, c1);
        UnlinkTask(t);
        BecameThen(t0, t1, State(), t.key, c1, c1.(task := None));
      } else {
        UnlinkTask(t);
      }
    }

    method Send(kind: Kind, channel: string, chatId: string, content: string)
      modifies this`outbox
      ensures outbox == old(outbox) + [Outbound(kind, channel, chatId, content)]
      ensures State() == old(State())
    {
      outbox := outbox + [Outbound(kind, channel, chatId, content)];
    }

    method TriggerLlm(key: string, taskId: string)
      requires Valid() && Filed(State()) && key in sessions
      modifies this`llm, this`prompts
      ensures Valid()
      ensures var c := CellIn(old(State()), key);
              && Became(old(State()), State(), key, c.(llm := c.llm + 1))
              && prompts == old(prompts) + [Prompt(taskId, Window(c.session.value.messages, cfg.ContextWindow()))]
    {
      hide Window, Became, Filed, ToTable, Distinct, IdsOf, SessionOrchestrator.Linked;
      ghost var t := State();
      LlmBecomes(t, key, llm[key] + 1);
      var window, _ := SnapshotForContext(sessions[key].messages, cfg.ContextWindow());
      prompts := prompts + [Prompt(taskId, window)];
      llm := llm[key := llm[key] + 1];
      assert State() == t.(llm := t.llm[key := t.llm[key] + 1]);
    }

    // ----- the handlers

    lemma ViewIsPut(t: Tables, w: World, e: Event, f: Effect)
      requires Became(t, State(), e.Key(), f.cell) && w.cells == Cells(t)
      requires outbox == w.outbox + f.out && prompts == w.prompts + f.prompts
      requires issued == if Accepts(CellOf(w, e.Key()), e) then w.issued + {e.taskId} else w.issued
      ensures View() == Put(w, e, f)
    {
      hide Filed, Cells, CellIn, SameBut, Accepts, CellOf;
      CellsPut(t, State(), e.Key());
    }

    method AcceptMessage(e: Event)
      requires Valid() && Filed(State()) && e.Inbound? && e.content != "" && e.Key() in sessions
      requires CellIn(State(), e.Key()).task == None && e.taskId !in issued && !IsCommand(e.content)
      modifies this`issued, this`llm, this`prompts, orchestrator, orchestrator.nodes, sessions[e.Key()]
      ensures Valid() && issued == old(issued) + {e.taskId}
      ensures forall n | n in orchestrator.nodes && n !in old(orchestrator.nodes) :: fresh(n)
      ensures var f := OnInbound(cfg, CellIn(old(State()), e.Key()), e);
              && Became(old(State()), State(), e.Key(), f.cell)
              && f.out == [] && prompts == old(prompts) + f.prompts
    {
      hide Became, Filed, SameBut, CellIn, State, ToTable, Distinct, IdsOf, SessionOrchestrator.Linked, Consolidated, Window, Formatted, SessionTable;
      var key, countBefore := e.Key(), |sessions[e.Key()].messages|;
      ghost var t0, c0, m := State(), CellIn(State(), key), User(Formatted(e.sender, e.content));
      CellSession(key);
      AskMessage(key, User(Formatted(e.sender, e.content)), e.memoryOk);
      ghost var t1 := State();
      ghost var c1 := c0.(session := Some(Consolidated(WithMessage(c0.session.value, m), cfg.ConsolidationWindow(), e.memoryOk)));
      BecameGives(t0, t1, key, c1);
      StartTask(e, countBefore);
      ghost var t2 := State();
      ghost var c2 := c1.(task := Some(NewTask(e, countBefore)));
      BecameGives(t1, t2, key, c2);
      TriggerLlm(key, e.taskId);
      BecameThen(t0, t1, t2, key, c1, c2);
      BecameThen(t0, t2, State(), key, c2, c2.(llm := c2.llm + 1));
    }

    lemma CellTask(key: string)
      requires Valid() && Filed(State())
      ensures CellIn(State(), key).task == if key in orchestrator.Table() then Some(orchestrator.Table()[key]) else None
      ensures CellIn(State(), key).task.Some? ==>
                CellIn(State(), key).task.value.key == key && CellIn(State(), key).task.value.state != Idle && key in sessions
      ensures key in sessions <==> key in State().sessions
      ensures CellIn(State(), key).llm == llm[key]
      ensures CellIn(State(), key).tools == if key in tools then tools[key] else multiset{}
    {
    }

    /** A message that is no command, once its session is there. */
    method ProcessOrdinary(e: Event)
      requires Valid() && Filed(State()) && e.Inbound? && e.content != "" && !IsCommand(e.content)
      requires e.Key() in sessions && e.taskId !in issued
      modifies this`outbox, this`issued, this`llm, this`prompts, orchestrator, orchestrator.nodes, sessions[e.Key()]
      ensures Valid() && forall n | n in orchestrator.nodes && n !in old(orchestrator.nodes) :: fresh(n)
      ensures var c := CellIn(old(State()), e.Key());
              var f := OnInbound(cfg, c, e);
              && Became(old(State()), State(), e.Key(), f.cell)
              && outbox == old(outbox) + f.out && prompts == old(prompts) + f.prompts
              && issued == if Accepts(c, e) then old(issued) + {e.taskId} else old(issued)
    {
      hide Became, Filed, SameBut, CellIn, ToTable, Distinct, IdsOf, SessionOrchestrator.Linked,
           Consolidated, Window, Formatted, IsCommand;
      var key := e.Key();
      ghost var t := State();
      CellTask(key);
      CellSession(key);
      BecameSame(t, key);
      ghost var kept := SessionTable();
      var existing := orchestrator.SnapshotTask(key);
      assert SessionTable() == kept;
      assert State() == t;
      if existing.Some? && existing.value.state != Idle {
        Send(Notice, e.channel, e.chatId, BUSY);
        assert prompts + [] == prompts;
      } else {
        assert outbox + [] == outbox;
        AcceptMessage(e);
      }
    }

    /** The session an inbound message finds, and what a command leaves to the dispatcher. */
    lemma InboundFinds(c: Cell, e: Event)
      requires e.Inbound? && e.content != ""
      ensures var d := c.(session := Some(SessionOr(c, e.Key())));
              && (IsCommand(e.content) ==> OnInbound(cfg, c, e) == Effect(d, [], []))
              && OnInbound(cfg, d, e) == OnInbound(cfg, c, e)
              && (Accepts(d, e) <==> Accepts(c, e))
    {
      hide Consolidated, Window, Formatted, IsCommand;
    }

    method ProcessInbound(e: Event)
      requires Valid() && Filed(State()) && e.Inbound? && e.content != "" && e.taskId !in issued
      modifies Heap()
      ensures Valid() && (forall o | o in Heap() && o !in old(Heap()) :: fresh(o))
      ensures var c := CellIn(old(State()), e.Key());
              var f := OnInbound(cfg, c, e);
              && Became(old(State()), State(), e.Key(), f.cell)
              && outbox == old(outbox) + f.out && prompts == old(prompts) + f.prompts
              && issued == if Accepts(c, e) then old(issued) + {e.taskId} else old(issued)
    {
      hide Became, Filed, SameBut, CellIn, State, ToTable, Distinct, IdsOf, SessionOrchestrator.Linked, SessionTable,
           OnInbound, IsCommand;
      var key := e.Key();
      ghost var t, c := State(), CellIn(State(), key);
      InboundFinds(c, e);
      GetSession(key);
      ghost var t1, c1 := State(), c.(session := Some(SessionOr(c, key)));
      BecameGives(t, t1, key, c1);
      if IsCommand(e.content) {
        assert outbox + [] == outbox && prompts + [] == prompts;
        return;
      }
      ProcessOrdinary(e);
      BecameThen(t, t1, State(), key, c1, OnInbound(cfg, c, e).cell);
    }

    /** The final answer of a task, then its removal. */
    method Conclude(t: Task, content: string)
      requires Valid() && Filed(State()) && t.key in sessions && CellIn(State(), t.key).task == Some(t)
      modifies this`outbox, orchestrator`head, orchestrator`spine, orchestrator`tasks, orchestrator.nodes, sessions[t.key]
      ensures Valid()
      ensures Became(old(State()), State(), t.key, Finish(CellIn(old(State()), t.key)))
      ensures outbox == old(outbox) + [Reply(t, Final(t.id), content)]
    {
      hide Became, Filed, SameBut, CellIn, State, ToTable, Distinct, IdsOf, SessionOrchestrator.Linked, SessionTable, Finish;
      Send(Final(t.id), t.channel, t.chatId, content);
      RemoveActiveTask(t);
    }

    method HandleLlmError(t: Task, e: Event)
      requires Valid() && Filed(State()) && t.key in sessions && CellIn(State(), t.key).task == Some(t)
      requires CellIn(State(), t.key).session.Some?
      requires e.LlmResult? && e.key == t.key && e.error.Some?
      modifies this`outbox, orchestrator`head, orchestrator`spine, orchestrator`tasks, orchestrator.nodes, sessions[t.key]
      ensures Valid()
      ensures var f := OnLlmError(CellIn(old(State()), t.key), e);
              Became(old(State()), State(), t.key, f.cell) && outbox == old(outbox) + f.out && f.prompts == []
    {
      hide Became, Filed, SameBut, CellIn, State, ToTable, Distinct, IdsOf, SessionOrchestrator.Linked, SessionTable, Recorded, Finish;
      ghost var t0, c0, m := State(), CellIn(State(), t.key), Assistant(SORRY + e.error.value, []);
      RecordMessage(t.key, Assistant(SORRY + e.error.value, []), t.noRecord);
      ghost var t1, c1 := State(), c0.(session := Some(Recorded(c0.session.value, m, t.noRecord)));
      BecameGives(t0, t1, t.key, c1);
      Conclude(t, SORRY + e.error.value);
      BecameThen(t0, t1, State(), t.key, c1, Finish(c1));
    }

    method HandleTextResponse(t: Task, e: Event)
      requires Valid() && Filed(State()) && t.key in sessions && CellIn(State(), t.key).task == Some(t)
      requires CellIn(State(), t.key).session.Some?
      requires e.LlmResult? && e.key == t.key
      modifies this`outbox, orchestrator`head, orchestrator`spine, orchestrator`tasks, orchestrator.nodes, sessions[t.key]
      ensures Valid()
      ensures var f := OnLlmText(CellIn(old(State()), t.key), e);
              Became(old(State()), State(), t.key, f.cell) && outbox == old(outbox) + f.out && f.prompts == []
      ensures t.turn <= 1 && t.pending == 0 && e.reminder.Some? ==>
                outbox == old(outbox) + [Outbound(Final(t.id), t.channel, t.chatId, e.reminder.value)]
      ensures !(t.turn <= 1 && t.pending == 0 && e.reminder.Some?) ==>
                outbox == old(outbox) + [Outbound(Final(t.id), t.channel, t.chatId, if e.cleaned != "" then e.cleaned else e.text)]
    {
      hide Became, Filed, SameBut, CellIn, State, ToTable, Distinct, IdsOf, SessionOrchestrator.Linked, SessionTable, Recorded, Finish;
      var content := if e.cleaned != "" then e.cleaned else e.text;
      if t.turn <= 1 && t.pending == 0 && e.reminder.Some? {
        content := e.reminder.value;
      }
      assert content == ReplyText(t, e);
      ghost var t0, c0 := State(), CellIn(State(), t.key);
      if content == "" {
        Conclude(t, content);
        return;
      }
      RecordMessage(t.key, Assistant(content, []), t.noRecord);
      ghost var t1, c1 := State(), c0.(session := Some(Recorded(c0.session.value, Assistant(content, []), t.noRecord)));
      BecameGives(t0, t1, t.key, c1);
      Conclude(t, content);
      BecameThen(t0, t1, State(), t.key, c1, Finish(c1));
    }

    /** Calls to tools nobody registered are rewritten in place, one by one. */
    method RewriteCalls(given: seq<ToolCall>) returns (calls: seq<ToolCall>)
      ensures calls == ResolveAll(cfg, given)
      ensures State() == old(State())
    {
      calls := given;
      for i := 0 to |given|
        invariant |calls| == |given|
        invariant forall j | 0 <= j < i :: calls[j] == Resolve(cfg, given[j])
        invariant forall j | i <= j < |given| :: calls[j] == given[j]
      {
        if calls[i].name !in cfg.tools && calls[i].name != "skill" {
          calls := calls[i := Resolve(cfg, calls[i])];
        }
      }
    }

    method HandleToolCalls(t: Task, e: Event)
      requires Valid() && Filed(State()) && t.key in sessions && CellIn(State(), t.key).task == Some(t)
      requires CellIn(State(), t.key).session.Some?
      requires e.LlmResult? && e.key == t.key
      modifies this`outbox, this`tools, orchestrator`head, orchestrator`spine, orchestrator`tasks, orchestrator.nodes, sessions[t.key]
      ensures Valid()
      ensures var f := OnLlmToolCalls(cfg, CellIn(old(State()), t.key), e);
              Became(old(State()), State(), t.key, f.cell) && outbox == old(outbox) + f.out && f.prompts == []
    {
      hide Became, Filed, SameBut, CellIn, State, ToTable, Distinct, IdsOf, SessionOrchestrator.Linked, SessionTable, Recorded, ResolveAll, CallsOf;
      var key := t.key;
      ghost var t0, c0 := State(), CellIn(State(), key);
      var calls := RewriteCalls(e.calls);
      if e.cleaned != "" {
        Send(Progress, t.channel, t.chatId, e.cleaned);
      }
      RecordMessage(key, Assistant(e.cleaned, calls), t.noRecord);
      ghost var t1, c1 := State(), c0.(session := Some(Recorded(c0.session.value, Assistant(e.cleaned, calls), t.noRecord)));
      BecameGives(t0, t1, key, c1);
      AwaitTools(key, |calls|);
      ghost var t2, c2 := State(), c1.(task := Some(t.(state := WaitingTool, pending := |calls|)));
      BecameGives(t1, t2, key, c2);
      AddOutstanding(key, CallsOf(calls));
      ghost var c3 := c2.(tools := c2.tools + CallsOf(calls));
      BecameThen(t0, t1, t2, key, c1, c2);
      BecameThen(t0, t2, State(), key, c2, c3);
    }

    method AddOutstanding(key: string, more: multiset<Call>)
      requires Valid() && Filed(State()) && key in sessions
      modifies this`tools
      ensures Valid()
      ensures var c := CellIn(old(State()), key);
              Became(old(State()), State(), key, c.(tools := c.tools + more))
    {
      hide Became, Filed;
      StoreTools(key, (if key in tools then tools[key] else multiset{}) + more);
    }

    method HandleLlmResult(e: Event)
      requires Valid() && Filed(State()) && e.LlmResult? && CellIn(State(), e.key).llm > 0
      modifies this`outbox, this`llm, this`tools, Heap() - {this}
      ensures Valid() && Heap() == old(Heap())
      ensures var f := OnLlmResult(cfg, CellIn(old(State()), e.key), e);
              && Became(old(State()), State(), e.key, f.cell)
              && outbox == old(outbox) + f.out && f.prompts == []
    {
      hide Became, Filed, SameBut, CellIn, State, ToTable, Distinct, IdsOf, SessionOrchestrator.Linked, SessionTable, OnLlmError, OnLlmText, OnLlmToolCalls;
      var key := e.key;
      ghost var t, c := State(), CellIn(State(), key);
      CellTask(key);
      TakeLlm(key);
      ghost var t1, c1 := State(), c.(llm := c.llm - 1);
      BecameGives(t, t1, key, c1);
      CellTask(key);
      var snap := orchestrator.SnapshotTask(key);
      if snap.Some? {
        CellSession(key);
        if e.error.Some? {
          HandleLlmError(snap.value, e);
        } else if e.calls == [] {
          HandleTextResponse(snap.value, e);
        } else {
          HandleToolCalls(snap.value, e);
        }
        BecameThen(t, t1, State(), key, c1, OnLlmResult(cfg, c, e).cell);
      }
    }

    method TakeTool(key: string, call: Call)
      requires Valid() && Filed(State()) && key in tools && call in tools[key]
      modifies this`tools
      ensures Valid()
      ensures var c := CellIn(old(State()), key);
              Became(old(State()), State(), key, c.(tools := c.tools - multiset{call}))
    {
      assert key in State().tools;
      hide Became;
      StoreTools(key, tools[key] - multiset{call});
    }

    /** Takes one tool result in: its message, then one result fewer to wait for. */
    method TakeResult(t: Task, e: Event) returns (remaining: int)
      requires Valid() && Filed(State()) && t.key in sessions && CellIn(State(), t.key).task == Some(t)
      requires CellIn(State(), t.key).session.Some? && e.ToolResult? && e.key == t.key
      modifies orchestrator`head, orchestrator`spine, orchestrator`tasks, orchestrator.nodes, sessions[t.key]
      ensures Valid() && remaining == t.pending - 1
      ensures var c := CellIn(old(State()), t.key);
              Became(old(State()), State(), t.key, c.(
                session := Some(Recorded(c.session.value, Tool(e.outcome, e.call), t.noRecord)),
                task := Some(t.(pending := t.pending - 1))))
    {
      hide Became, Filed, SameBut, CellIn, State, ToTable, Distinct, IdsOf, SessionOrchestrator.Linked, SessionTable, Recorded;
      ghost var t0, c0 := State(), CellIn(State(), t.key);
      RecordMessage(t.key, Tool(e.outcome, e.call), t.noRecord);
      ghost var t1 := State();
      ghost var c1 := c0.(session := Some(Recorded(c0.session.value, Tool(e.outcome, e.call), t.noRecord)));
      BecameGives(t0, t1, t.key, c1);
      remaining := CountResult(t.key);
      BecameThen(t0, t1, State(), t.key, c1, c1.(task := Some(t.(pending := remaining))));
    }

    /** After a result: waits for more, gives up at the limit, or asks the LLM again. */
    method Continue(t: Task, remaining: int)
      requires Valid() && Filed(State()) && t.key in sessions
      requires CellIn(State(), t.key).task == Some(t.(pending := remaining)) && CellIn(State(), t.key).session.Some?
      modifies this`outbox, this`llm, this`prompts, orchestrator`head, orchestrator`spine, orchestrator`tasks, orchestrator.nodes, sessions[t.key]
      ensures Valid()
      ensures var f := NextRound(cfg, CellIn(old(State()), t.key));
              && Became(old(State()), State(), t.key, f.cell)
              && outbox == old(outbox) + f.out && prompts == old(prompts) + f.prompts
    {
      hide Became, Filed, SameBut, CellIn, State, ToTable, Distinct, IdsOf, SessionOrchestrator.Linked, SessionTable, Window, Finish;
      var key := t.key;
      ghost var t0, c0 := State(), CellIn(State(), key);
      if remaining > 0 {
        CellTask(key);
        BecameSame(t0, key);
        return;
      }
      if t.turn >= cfg.MaxTurns() {
        Conclude(t.(pending := remaining), SORRY + TOO_MANY);
        return;
      }
      NextTurn(key);
      ghost var t1 := State();
      ghost var c1 := c0.(task := Some(t.(pending := remaining, turn := t.turn + 1, state := WaitingLlm)));
      BecameGives(t0, t1, key, c1);
      TriggerLlm(key, t.id);
      BecameThen(t0, t1, State(), key, c1, c1.(llm := c1.llm + 1));
    }

    method ResultForTask(t: Task, e: Event)
      requires Valid() && Filed(State()) && t.key in sessions && CellIn(State(), t.key).task == Some(t)
      requires CellIn(State(), t.key).session.Some? && e.ToolResult? && e.key == t.key
      modifies this`outbox, this`llm, this`prompts, orchestrator`head, orchestrator`spine, orchestrator`tasks, orchestrator.nodes, sessions[t.key]
      ensures Valid()
      ensures var c := CellIn(old(State()), t.key);
              var f := NextRound(cfg, c.(
                session := Some(Recorded(c.session.value, Tool(e.outcome, e.call), t.noRecord)),
                task := Some(t.(pending := t.pending - 1))));
              && Became(old(State()), State(), t.key, f.cell)
              && outbox == old(outbox) + f.out && prompts == old(prompts) + f.prompts
    {
      hide Became, Filed, SameBut, CellIn, State, ToTable, Distinct, IdsOf, SessionOrchestrator.Linked, SessionTable, NextRound, Recorded;
      ghost var t0, c0 := State(), CellIn(State(), t.key);
      var remaining := TakeResult(t, e);
      ghost var t1 := State();
      ghost var c1 := c0.(session := Some(Recorded(c0.session.value, Tool(e.outcome, e.call), t.noRecord)),
                          task := Some(t.(pending := t.pending - 1)));
      BecameGives(t0, t1, t.key, c1);
      Continue(t, remaining);
      BecameThen(t0, t1, State(), t.key, c1, NextRound(cfg, c1).cell);
    }

    /** A tool result, once it is no longer to come: taken in by the session's task if any. */
    ghost function OnArrived(c: Cell, e: Event): Effect
      requires e.ToolResult? && (c.task.Some? ==> c.session.Some?)
    {
      if c.task.None? then Effect(c, [], [])
      else NextRound(cfg, c.(
        session := Some(Recorded(c.session.value, Tool(e.outcome, e.call), c.task.value.noRecord)),
        task := Some(c.task.value.(pending := c.task.value.pending - 1))))
    }

    lemma ToolResultIs(c: Cell, e: Event)
      requires e.ToolResult? && e.call in c.tools && (c.task.Some? ==> c.session.Some?)
      ensures OnToolResult(cfg, c, e) == OnArrived(c.(tools := c.tools - multiset{e.call}), e)
    {
      hide NextRound, Recorded;
    }

    method ResultArrived(e: Event)
      requires Valid() && Filed(State()) && e.ToolResult? && e.key in sessions
      requires CellIn(State(), e.key).task.Some? ==> CellIn(State(), e.key).session.Some?
      modifies this`outbox, this`llm, this`prompts,
               orchestrator`head, orchestrator`spine, orchestrator`tasks, orchestrator.nodes, sessions[e.key]
      ensures Valid()
      ensures var f := OnArrived(CellIn(old(State()), e.key), e);
              && Became(old(State()), State(), e.key, f.cell)
              && outbox == old(outbox) + f.out && prompts == old(prompts) + f.prompts
    {
      hide Became, Filed, SameBut, CellIn, ToTable, Distinct, IdsOf, SessionOrchestrator.Linked, NextRound, Recorded;
      ghost var t, kept := State(), SessionTable();
      CellTask(e.key);
      BecameSame(t, e.key);
      var snap := orchestrator.SnapshotTask(e.key);
      assert SessionTable() == kept;
      assert State() == t;
      if snap.Some? {
        ResultForTask(snap.value, e);
      } else {
        assert outbox + [] == outbox && prompts + [] == prompts;
      }
    }

    method HandleToolResult(e: Event)
      requires Valid() && Filed(State()) && e.ToolResult? && e.call in CellIn(State(), e.key).tools
      modifies this`outbox, this`llm, this`tools, this`prompts, Heap() - {this}
      ensures Valid() && Heap() == old(Heap())
      ensures var f := OnToolResult(cfg, CellIn(old(State()), e.key), e);
              && Became(old(State()), State(), e.key, f.cell)
              && outbox == old(outbox) + f.out && prompts == old(prompts) + f.prompts
    {
      hide Became, Filed, SameBut, CellIn, State, ToTable, Distinct, IdsOf, SessionOrchestrator.Linked, SessionTable,
           OnToolResult, OnArrived;
      var key := e.key;
      ghost var t, c := State(), CellIn(State(), key);
      CellTask(key);
      TaskHasSession(t, key);
      ToolResultIs(c, e);
      TakeTool(key, e.call);
      ghost var t1, c1 := State(), c.(tools := c.tools - multiset{e.call});
      BecameGives(t, t1, key, c1);
      CellTask(key);
      ResultArrived(e);
      BecameThen(t, t1, State(), key, c1, OnToolResult(cfg, c, e).cell);
    }

    /** The processing worker's dispatch: one event, one step of the protocol. */
    method HandleEvent(e: Event)
      requires Valid() && Filed(State()) && CanStep(View(), e)
      modifies Heap()
      ensures Valid() && Filed(State()) && (forall o | o in Heap() && o !in old(Heap()) :: fresh(o))
      ensures View() == Step(cfg, old(View()), e)
    {
      hide Became, Filed, SameBut, CellIn, State, ToTable, Distinct, IdsOf, SessionOrchestrator.Linked, SessionTable, Put, OnInbound, OnLlmResult, OnToolResult, Cells, CellOf;
      if e.Inbound? && e.content == "" {
        return;
      }
      ghost var t, w := State(), View();
      CellsFind(t, w, e.Key());
      ghost var f := CellStep(cfg, CellIn(t, e.Key()), e);
      match e {
        case LlmResult(_, _, _, _, _, _) => HandleLlmResult(e);
        case ToolResult(_, _, _) => HandleToolResult(e);
        case Inbound(_, _, _, _, _, _, _) => ProcessInbound(e);
      }
      BecameGives(t, State(), e.Key(), f.cell);
      ViewIsPut(t, w, e, f);
    }

    /** Whatever order events arrive in, the worker's run is the protocol's run. */
    method ProcessAll(events: seq<Event>)
      requires Valid() && Filed(State()) && IsRun(cfg, View(), events)
      modifies Heap()
      ensures Valid() && Filed(State()) && (forall o | o in Heap() && o !in old(Heap()) :: fresh(o))
      ensures View() == After(cfg, old(View()), events)
    {
      hide Valid, Filed, State, View, Step, CanStep;
      for i := 0 to |events|
        invariant Valid() && Filed(State()) && (forall o | o in Heap() && o !in old(Heap()) :: fresh(o))
        invariant IsRun(cfg, View(), events[i..])
        invariant After(cfg, View(), events[i..]) == After(cfg, old(View()), events)
      {
        assert events[i..][0] == events[i] && events[i..][1..] == events[i + 1..];
        HandleEvent(events[i]);
      }
    }

    /** The result of one LLM request is no longer to come. */
    method TakeLlm(key: string)
      requires Valid() && Filed(State()) && llm[key] > 0
      modifies this`llm
      ensures Valid() && CellIn(old(State()), key).llm > 0
      ensures var c := CellIn(old(State()), key);
              Became(old(State()), State(), key, c.(llm := c.llm - 1))
    {
      ghost var t, kept := State(), SessionTable();
      LlmKnown(t, key);
      hide Became, Filed, CellIn, ToTable, Distinct, IdsOf, SessionOrchestrator.Linked;
      LlmBecomes(t, key, llm[key] - 1);
      llm := llm[key := llm[key] - 1];
      assert SessionTable() == kept;
      assert State() == t.(llm := t.llm[key := t.llm[key] - 1]);
    }
  }
}
