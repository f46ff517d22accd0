/** The job list of the scheduler and one pass of its worker. The list is linked nodes edited in
    place; while a job's callback runs the lock is released and other jobs may be added. */
module CronWorker {
  import opened CronFields
  import opened CronSearch
  import opened Sequences
  import opened Wrappers

  datatype Job = Job(id: string, name: Option<string>, payload: Option<string>,
                     schedule: Option<string>, nextRun: int, retries: nat, status: int)

  function Ids(jobs: seq<Job>): (ids: seq<string>)
    ensures |ids| == |jobs|
    ensures forall i | 0 <= i < |jobs| :: ids[i] == jobs[i].id
  {
    seq(|jobs|, i requires 0 <= i < |jobs| => jobs[i].id)
  }

  /** How often each id occurs. */
  ghost function IdBag(jobs: seq<Job>): multiset<string> {
    multiset(Ids(jobs))
  }

  ghost predicate NoRepeat(ids: multiset<string>) {
    forall id | id in ids :: ids[id] == 1
  }

  lemma IdBagConcat(a: seq<Job>, b: seq<Job>)
    ensures IdBag(a + b) == IdBag(a) + IdBag(b)
  {
    assert Ids(a + b) == Ids(a) + Ids(b);
  }

  lemma IdAt(jobs: seq<Job>, i: nat, j: nat)
    requires NoRepeat(IdBag(jobs)) && i < j < |jobs|
    ensures jobs[i].id != jobs[j].id
  {
    var ids := Ids(jobs);
    assert ids == ids[..j] + [ids[j]] + ids[j + 1..];
    assert multiset(ids) == multiset(ids[..j]) + multiset{ids[j]} + multiset(ids[j + 1..]);
    assert ids[j] in multiset(ids);
    assert ids[..j][i] == ids[i] && ids[i] in multiset(ids[..j]);
  }

  predicate Due(job: Job, now: int) {
    job.nextRun <= now
  }

  function Rescheduled(job: Job, next: int): Job {
    job.(nextRun := next, retries := 0, status := 0)
  }

  /** The job after it fired: rescheduled when recurring, otherwise gone. */
  ghost function AfterRun(cal: Calendar, job: Job, now: int): Option<Job>
    requires Advances(cal)
  {
    match OutcomeOf(cal, job.schedule, now)
    case Recurring(next) => Some(Rescheduled(job, next))
    case OneTime(_) => None
    case Invalid => None
  }

  // ----- jobs added while callbacks run

  /** What is added during the next callback, newest last. */
  function Next(arrivals: seq<seq<Job>>): seq<Job> {
    if arrivals == [] then [] else arrivals[0]
  }

  function Later(arrivals: seq<seq<Job>>): seq<seq<Job>> {
    if arrivals == [] then [] else arrivals[1..]
  }

  function Flat(arrivals: seq<seq<Job>>): seq<Job> {
    if arrivals == [] then [] else arrivals[0] + Flat(arrivals[1..])
  }

  /** Each addition goes to the head of the list. */
  function Prepended(added: seq<Job>, jobs: seq<Job>): seq<Job> {
    if added == [] then jobs else Prepended(added[1..], [added[0]] + jobs)
  }

  /** What was in the list is still its tail. */
  lemma {:induction false} PrependedLength(added: seq<Job>, jobs: seq<Job>)
    ensures |Prepended(added, jobs)| == |added| + |jobs|
  {
    if added != [] {
      PrependedLength(added[1..], [added[0]] + jobs);
    }
  }

  lemma {:induction false} PrependedIds(added: seq<Job>, jobs: seq<Job>)
    ensures IdBag(Prepended(added, jobs)) == IdBag(added) + IdBag(jobs)
  {
    if added == [] {
    } else {
      PrependedIds(added[1..], [added[0]] + jobs);
      IdBagConcat([added[0]], jobs);
      IdBagConcat([added[0]], added[1..]);
      assert [added[0]] + added[1..] == added;
    }
  }

  lemma {:induction false} PrependedKeepsTail(added: seq<Job>, jobs: seq<Job>, tail: seq<Job>)
    ensures Prepended(added, jobs + tail) == Prepended(added, jobs) + tail
  {
    if added != [] {
      PrependedKeepsTail(added[1..], [added[0]] + jobs, tail);
      assert [added[0]] + (jobs + tail) == [added[0]] + jobs + tail;
    }
  }

  lemma PrependedUnique(added: seq<Job>, jobs: seq<Job>)
    requires NoRepeat(IdBag(jobs) + IdBag(added))
    ensures NoRepeat(IdBag(Prepended(added, jobs)))
  {
    hide Prepended, NoRepeat, IdBag;
    PrependedIds(added, jobs);
    assert IdBag(added) + IdBag(jobs) == IdBag(jobs) + IdBag(added);
  }

  lemma PrependedParts(added: seq<Job>, done: seq<Job>, todo: seq<Job>)
    requires todo != []
    ensures var r, here := Prepended(added, done + todo), |added| + |done|;
            && here < |r| && r[..here] == Prepended(added, done)
            && r[here] == todo[0] && r[here + 1..] == todo[1..]
  {
    PrependedLength(added, done);
    PrependedKeepsTail(added, done, todo);
  }

  lemma FewerRepeat(a: multiset<string>, b: multiset<string>)
    requires a <= b && NoRepeat(b)
    ensures NoRepeat(a)
  {
  }

  // ----- the pass

  datatype PassResult = PassResult(jobs: seq<Job>, fired: seq<Job>)

  /** What lies before the next job once this one fired. A job that goes away while nothing lay
      before it takes with it what was added meanwhile. */
  ghost function Settled(cal: Calendar, before: seq<Job>, first: bool, job: Job, now: int): seq<Job>
    requires Advances(cal)
  {
    match AfterRun(cal, job, now)
    case Some(after) => before + [after]
    case None => if first then [] else before
  }

  ghost function Kept(cal: Calendar, done: seq<Job>, job: Job, now: int, added: seq<Job>): seq<Job>
    requires Advances(cal)
  {
    Settled(cal, Prepended(added, done), done == [], job, now)
  }

  /** The pass at a job: `done` is what lies before it in the list, `todo` starts with it. */
  ghost function Pass(cal: Calendar, done: seq<Job>, todo: seq<Job>, now: int, arrivals: seq<seq<Job>>): PassResult
    requires Advances(cal)
    decreases |todo|
  {
    if todo == [] then PassResult(done, [])
    else if !Due(todo[0], now) then Pass(cal, done + [todo[0]], todo[1..], now, arrivals)
    else
      var kept := Kept(cal, done, todo[0], now, Next(arrivals));
      var rest := Pass(cal, kept, todo[1..], now, Later(arrivals));
      PassResult(rest.jobs, [todo[0]] + rest.fired)
  }

  lemma SettledIds(cal: Calendar, before: seq<Job>, first: bool, job: Job, now: int)
    requires Advances(cal)
    ensures IdBag(Settled(cal, before, first, job, now)) <= IdBag(before) + multiset{job.id}
  {
    match AfterRun(cal, job, now) {
      case Some(after) =>
        IdBagConcat(before, [after]);
        assert Ids([after]) == [job.id];
      case None =>
    }
  }

  /** A firing loses no more than the job itself, and gains what is added. */
  lemma KeptFewer(cal: Calendar, done: seq<Job>, todo: seq<Job>, now: int, arrivals: seq<seq<Job>>)
    requires Advances(cal) && todo != []
    ensures var kept := Kept(cal, done, todo[0], now, Next(arrivals));
            IdBag(kept + todo[1..]) + IdBag(Flat(Later(arrivals))) <= IdBag(done + todo) + IdBag(Flat(arrivals))
    ensures IdBag(Flat(arrivals)) == IdBag(Next(arrivals)) + IdBag(Flat(Later(arrivals)))
  {
    hide *;
    var added, job, rest := Next(arrivals), todo[0], todo[1..];
    var kept := Kept(cal, done, job, now, added);
    SplitIds(done, todo);
    FlatIds(arrivals);
    PrependedIds(added, done);
    IdBagConcat(kept, rest);
    KeptIsSettled(cal, done, job, now, added);
    SettledIds(cal, Prepended(added, done), done == [], job, now);
  }

  lemma KeptIds(cal: Calendar, done: seq<Job>, todo: seq<Job>, now: int, arrivals: seq<seq<Job>>)
    requires Advances(cal) && todo != [] && NoRepeat(IdBag(done + todo) + IdBag(Flat(arrivals)))
    ensures NoRepeat(IdBag(done + todo) + IdBag(Next(arrivals)))
    ensures var kept := Kept(cal, done, todo[0], now, Next(arrivals));
            NoRepeat(IdBag(kept + todo[1..]) + IdBag(Flat(Later(arrivals))))
  {
    hide *;
    KeptFewer(cal, done, todo, now, arrivals);
    var kept, all := Kept(cal, done, todo[0], now, Next(arrivals)), IdBag(done + todo) + IdBag(Flat(arrivals));
    FewerRepeat(IdBag(done + todo) + IdBag(Next(arrivals)), all);
    FewerRepeat(IdBag(kept + todo[1..]) + IdBag(Flat(Later(arrivals))), all);
  }

  lemma KeptIsSettled(cal: Calendar, done: seq<Job>, job: Job, now: int, added: seq<Job>)
    requires Advances(cal)
    ensures Kept(cal, done, job, now, added) == Settled(cal, Prepended(added, done), done == [], job, now)
  {
  }

  lemma SplitIds(done: seq<Job>, todo: seq<Job>)
    requires todo != []
    ensures IdBag(done + todo) == IdBag(done) + multiset{todo[0].id} + IdBag(todo[1..])
  {
    assert todo == [todo[0]] + todo[1..];
    IdBagConcat(done, todo);
    IdBagConcat([todo[0]], todo[1..]);
    assert Ids([todo[0]]) == [todo[0].id];
  }

  function Joined(calls: seq<Job>, r: PassResult): PassResult {
    PassResult(r.jobs, calls + r.fired)
  }

  lemma PassMoves(cal: Calendar, calls: seq<Job>, done: seq<Job>, todo: seq<Job>, now: int, arrivals: seq<seq<Job>>)
    requires Advances(cal) && todo != []
    ensures Joined(calls, Pass(cal, done, todo, now, arrivals)) ==
            if todo[0].nextRun <= now then
              Joined(calls + [todo[0]],
                     Pass(cal, Kept(cal, done, todo[0], now, Next(arrivals)), todo[1..], now, Later(arrivals)))
            else
              Joined(calls, Pass(cal, done + [todo[0]], todo[1..], now, arrivals))
  {
    hide Kept;
    if Due(todo[0], now) {
      var rest := Pass(cal, Kept(cal, done, todo[0], now, Next(arrivals)), todo[1..], now, Later(arrivals));
      assert calls + [todo[0]] + rest.fired == calls + ([todo[0]] + rest.fired);
    }
  }

  lemma FlatIds(arrivals: seq<seq<Job>>)
    ensures IdBag(Flat(arrivals)) == IdBag(Next(arrivals)) + IdBag(Flat(Later(arrivals)))
  {
    if arrivals != [] {
      IdBagConcat(arrivals[0], Flat(arrivals[1..]));
    }
  }

  lemma UpdateIs<T>(s: seq<T>, at: nat, x: T)
    requires at < |s|
    ensures s[at := x] == s[..at] + [x] + s[at + 1..]
  {
  }

  method Judge(cal: Calendar, schedule: Option<string>, now: int) returns (outcome: Outcome)
    requires Advances(cal)
    ensures outcome == OutcomeOf(cal, schedule, now)
  {
    hide IsOutcome;
    outcome := ScheduleNextRun(cal, schedule, now);
    OutcomeUnique(cal, schedule, now, outcome, OutcomeOf(cal, schedule, now));
  }

  method Reckon(cal: Calendar, job: Job, now: int) returns (outcome: Outcome)
    requires Advances(cal)
    ensures AfterRun(cal, job, now) ==
            if outcome.Recurring? then Some(Rescheduled(job, outcome.next)) else None
  {
    outcome := Judge(cal, job.schedule, now);
  }

  // ----- adding and removing

  /** The first job of that name, or the length of the list. */
  function NameAt(jobs: seq<Job>, name: Option<string>): (at: nat)
    ensures at <= |jobs| && (at < |jobs| ==> name.Some? && jobs[at].name == name)
    ensures forall i | 0 <= i < at :: name.None? || jobs[i].name != name
  {
    if name.None? then |jobs|
    else if jobs == [] || jobs[0].name == name then 0
    else 1 + NameAt(jobs[1..], name)
  }

  datatype Added = Added(jobs: seq<Job>, id: Option<string>)

  function Retimed(job: Job, outcome: Outcome): Job {
    match outcome
    case Invalid => job
    case OneTime(next) => job.(nextRun := next)
    case Recurring(next) => job.(nextRun := next)
  }

  /** A job of a known name takes over the new schedule and payload; others go to the head. */
  ghost function AddSpec(cal: Calendar, jobs: seq<Job>, job: Job, now: int): Added
    requires Advances(cal)
  {
    var outcome, at := OutcomeOf(cal, job.schedule, now), NameAt(jobs, job.name);
    if at < |jobs| then
      var updated := Retimed(jobs[at].(schedule := job.schedule, payload := job.payload), outcome);
      Added(jobs[at := updated], if outcome.Invalid? then None else Some(updated.id))
    else if outcome.Invalid? then Added(jobs, None)
    else Added([Retimed(job, outcome)] + jobs, Some(job.id))
  }

  function IdIndex(jobs: seq<Job>, id: string): (at: nat)
    ensures at <= |jobs| && (at < |jobs| ==> jobs[at].id == id)
    ensures forall i | 0 <= i < at :: jobs[i].id != id
  {
    if jobs == [] || jobs[0].id == id then 0 else 1 + IdIndex(jobs[1..], id)
  }

  function RemoveSpec(jobs: seq<Job>, id: string): seq<Job> {
    var at := IdIndex(jobs, id);
    if at < |jobs| then Without(jobs, at) else jobs
  }

  lemma BadFields()
    ensures ParseFields("bad") == None
  {
    var s := "bad";
    assert s[..3] == s && s[3..] == [] && WordLength(s) == 3;
    assert TakeToken(s) == (s, "") && TakeToken("") == ("", "");
    hide TakeToken;
    assert Tokens("", 4) == None;
  }

  lemma BadScheduleIsInvalid(cal: Calendar, now: int)
    requires Advances(cal)
    ensures OutcomeOf(cal, Some("bad"), now) == Invalid
  {
    var s := "bad";
    BadFields();
    assert ScanInt(s) == None;
    assert ParseDaily(s) == None;
    assert s[0] == 'b';
    hide ParseFields, ParseDaily, Atoi;
    assert FixedOutcome(Some(s), now) == None;
    hide FixedOutcome;
  }

  /** A refused addition that has changed the list: a known job is left with the bad schedule. */
  lemma RejectedAddExample(cal: Calendar, now: int)
    requires Advances(cal)
    ensures var old' := Job("a", Some("n"), None, Some("@every 60"), now, 0, 0);
            var new' := Job("b", Some("n"), None, Some("bad"), now, 0, 0);
            AddSpec(cal, [old'], new', now) == Added([old'.(schedule := Some("bad"))], None)
  {
    BadScheduleIsInvalid(cal, now);
    hide OutcomeOf;
  }

  lemma {:induction false} NameAtIs(jobs: seq<Job>, name: Option<string>, at: nat)
    requires at < |jobs| && name.Some? && jobs[at].name == name
    requires forall i | 0 <= i < at :: jobs[i].name != name
    ensures NameAt(jobs, name) == at
  {
    if at > 0 {
      NameAtIs(jobs[1..], name, at - 1);
    }
  }

  lemma RemovesAt(jobs: seq<Job>, id: string)
    ensures var at := IdIndex(jobs, id);
            if at == |jobs| then RemoveSpec(jobs, id) == jobs
            else RemoveSpec(jobs, id) == (if at == 0 then [] else jobs[..at]) + jobs[at + 1..]
    ensures (exists j :: j in jobs && j.id == id) <==> IdIndex(jobs, id) < |jobs|
  {
    var at := IdIndex(jobs, id);
    if at < |jobs| {
      assert jobs[at] in jobs;
    }
  }

  /** Names stay distinct whatever is added. */
  lemma AddKeepsNames(cal: Calendar, jobs: seq<Job>, job: Job, now: int)
    requires Advances(cal)
    requires forall i, j | 0 <= i < j < |jobs| :: jobs[i].name.None? || jobs[i].name != jobs[j].name
    ensures var r := AddSpec(cal, jobs, job, now).jobs;
            forall i, j | 0 <= i < j < |r| :: r[i].name.None? || r[i].name != r[j].name
  {
    var o := OutcomeOf(cal, job.schedule, now);
    hide OutcomeOf;
    assert Retimed(job, o).name == job.name;
  }

  /** Removing a job just added under a new name and id restores the list. */
  lemma RemoveUndoesAdd(cal: Calendar, jobs: seq<Job>, job: Job, now: int)
    requires Advances(cal) && NameAt(jobs, job.name) == |jobs|
    requires forall j | j in jobs :: j.id != job.id
    ensures RemoveSpec(AddSpec(cal, jobs, job, now).jobs, job.id) == jobs
  {
    var r := AddSpec(cal, jobs, job, now).jobs;
    if r != jobs {
      assert r[0].id == job.id;
      assert Without(r, 0) == jobs;
    } else {
      assert IdIndex(jobs, job.id) == |jobs|;
    }
  }

  /** A rejected addition changes the list exactly when it names a job of another schedule or
      payload: the update is written before the schedule is judged. */
  lemma RejectedAddExact(cal: Calendar, jobs: seq<Job>, job: Job, now: int)
    requires Advances(cal) && OutcomeOf(cal, job.schedule, now).Invalid?
    ensures var r, at := AddSpec(cal, jobs, job, now), NameAt(jobs, job.name);
            && r.id == None
            && (r.jobs == jobs <==>
                (at < |jobs| ==> jobs[at].schedule == job.schedule && jobs[at].payload == job.payload))
  {
    var r, at := AddSpec(cal, jobs, job, now), NameAt(jobs, job.name);
    if at < |jobs| {
      assert r.jobs[at] == jobs[at].(schedule := job.schedule, payload := job.payload);
    }
  }

  // ----- ids over passes, additions and removals

  datatype Op =
    | PassOp(now: int, arrivals: seq<seq<Job>>)
    | AddOp(job: Job, now: int)
    | RemoveOp(id: string)

  ghost function Apply(cal: Calendar, jobs: seq<Job>, op: Op): seq<Job>
    requires Advances(cal)
  {
    match op
    case PassOp(now, arrivals) => Pass(cal, [], jobs, now, arrivals).jobs
    case AddOp(job, now) => AddSpec(cal, jobs, job, now).jobs
    case RemoveOp(id) => RemoveSpec(jobs, id)
  }

  ghost function ApplyAll(cal: Calendar, jobs: seq<Job>, ops: seq<Op>): seq<Job>
    requires Advances(cal)
    decreases |ops|
  {
    if ops == [] then jobs else ApplyAll(cal, Apply(cal, jobs, ops[0]), ops[1..])
  }

  /** The ids an operation brings in. */
  ghost function NewIds(op: Op): multiset<string> {
    match op
    case PassOp(_, arrivals) => IdBag(Flat(arrivals))
    case AddOp(job, _) => multiset{job.id}
    case RemoveOp(_) => multiset{}
  }

  ghost function AllNewIds(ops: seq<Op>): multiset<string> {
    if ops == [] then multiset{} else NewIds(ops[0]) + AllNewIds(ops[1..])
  }

  lemma {:induction false} PassIds(cal: Calendar, done: seq<Job>, todo: seq<Job>, now: int, arrivals: seq<seq<Job>>)
    requires Advances(cal)
    ensures IdBag(Pass(cal, done, todo, now, arrivals).jobs) <= IdBag(done + todo) + IdBag(Flat(arrivals))
    decreases |todo|
  {
    if todo == [] {
      assert done + todo == done;
    } else {
      PassUnfolds(cal, done, todo, now, arrivals);
      hide *;
      if !Due(todo[0], now) {
        PassIds(cal, done + [todo[0]], todo[1..], now, arrivals);
        MoveOne(done, todo);
      } else {
        var kept := Kept(cal, done, todo[0], now, Next(arrivals));
        PassIds(cal, kept, todo[1..], now, Later(arrivals));
        KeptFewer(cal, done, todo, now, arrivals);
      }
    }
  }

  lemma AddIds(cal: Calendar, jobs: seq<Job>, job: Job, now: int)
    requires Advances(cal)
    ensures IdBag(AddSpec(cal, jobs, job, now).jobs) <= IdBag(jobs) + multiset{job.id}
  {
    var outcome, at := OutcomeOf(cal, job.schedule, now), NameAt(jobs, job.name);
    hide OutcomeOf, NameAt;
    if at < |jobs| {
      assert Ids(AddSpec(cal, jobs, job, now).jobs) == Ids(jobs);
    } else if !outcome.Invalid? {
      IdBagConcat([Retimed(job, outcome)], jobs);
      assert Ids([Retimed(job, outcome)]) == [job.id];
    }
  }

  lemma RemoveIds(jobs: seq<Job>, id: string)
    ensures IdBag(RemoveSpec(jobs, id)) <= IdBag(jobs)
  {
    var at := IdIndex(jobs, id);
    if at < |jobs| {
      var before, after := jobs[..at], jobs[at..];
      assert RemoveSpec(jobs, id) == before + after[1..];
      assert jobs == before + after;
      hide RemoveSpec, IdIndex, IdBag, Without;
      SplitIds(before, after);
      IdBagConcat(before, after[1..]);
    }
  }

  lemma ApplyIds(cal: Calendar, jobs: seq<Job>, op: Op)
    requires Advances(cal)
    ensures IdBag(Apply(cal, jobs, op)) <= IdBag(jobs) + NewIds(op)
  {
    match op {
      case PassOp(now, arrivals) =>
        PassIds(cal, [], jobs, now, arrivals);
        assert [] + jobs == jobs;
      case AddOp(job, now) => AddIds(cal, jobs, job, now);
      case RemoveOp(id) => RemoveIds(jobs, id);
    }
  }

  lemma MoreBelow(a: multiset<string>, b: multiset<string>, c: multiset<string>, d: multiset<string>)
    requires a <= b + c && NoRepeat(b + (c + d))
    ensures NoRepeat(a + d)
  {
    FewerRepeat(a + d, b + (c + d));
  }

  /** Ids stay distinct over any passes, additions and removals, as long as every new id is new:
      so each pass finds its jobs again. */
  lemma {:induction false} IdsStayDistinct(cal: Calendar, jobs: seq<Job>, ops: seq<Op>)
    requires Advances(cal) && NoRepeat(IdBag(jobs) + AllNewIds(ops))
    ensures NoRepeat(IdBag(ApplyAll(cal, jobs, ops)))
    decreases |ops|
  {
    hide IdBag, NoRepeat, Apply, NewIds;
    if ops == [] {
      assert IdBag(jobs) + multiset{} == IdBag(jobs);
    } else {
      ApplyIds(cal, jobs, ops[0]);
      MoreBelow(IdBag(Apply(cal, jobs, ops[0])), IdBag(jobs), NewIds(ops[0]), AllNewIds(ops[1..]));
      IdsStayDistinct(cal, Apply(cal, jobs, ops[0]), ops[1..]);
    }
  }

  class JobNode {
    var job: Job
    var next: JobNode?

    constructor (job: Job, next: JobNode?)
      ensures this.job == job && this.next == next
    {
      this.job, this.next := job, next;
    }
  }

  class CronService {
    const cal: Calendar
    var head: JobNode?
    var fired: seq<Job>        // the callback's calls, in order
    ghost var spine: seq<JobNode>
    ghost var jobs: seq<Job>
    ghost var nodes: set<JobNode>

    ghost function At(i: nat): JobNode?
      reads this
    {
      if i < |spine| then spine[i] else null
    }

    ghost predicate Valid()
      reads this, nodes
    {
      && Advances(cal)
      && |spine| == |jobs| && head == At(0)
      && (forall i, j | 0 <= i < j < |spine| :: spine[i] != spine[j])
      && (forall i | 0 <= i < |spine| :: spine[i] in nodes)
      && (forall i | 0 <= i < |spine| :: spine[i].job == jobs[i] && spine[i].next == At(i + 1))
    }

    /** Where the walk stands: before node `at`. */
    ghost predicate Cursor(prev: JobNode?, current: JobNode?, at: nat)
      reads this
    {
      at <= |spine| && current == At(at) && prev == if at == 0 then null else spine[at - 1]
    }

    constructor (cal: Calendar)
      requires Advances(cal)
      ensures Valid() && jobs == [] && fired == [] && spine == [] && this.cal == cal
    {
      this.cal := cal;
      head, fired, spine, jobs, nodes := null, [], [], [], {};
    }

    method Push(job: Job)
      requires Valid()
      modifies this`head, this`spine, this`jobs, this`nodes
      ensures Valid() && (forall n | n in nodes && n !in old(nodes) :: fresh(n))
      ensures jobs == [job] + old(jobs) && |spine| > 0 && spine[1..] == old(spine)
    {
      var node := new JobNode(job, head);
      head := node;
      spine := [node] + spine;
      nodes := nodes + {node};
      jobs := [job] + jobs;
    }

    /** The callback runs with the lock released; these are the jobs others add meanwhile. */
    method Fire(job: Job, added: seq<Job>)
      requires Valid()
      modifies this
      ensures Valid() && (forall n | n in nodes && n !in old(nodes) :: fresh(n))
      ensures fired == old(fired) + [job]
      ensures jobs == Prepended(added, old(jobs))
      ensures |spine| == |added| + |old(spine)| && spine[|added|..] == old(spine)
    {
      fired := fired + [job];
      var i := 0;
      while i < |added|
        invariant 0 <= i <= |added|
        invariant Valid() && (forall n | n in nodes && n !in old(nodes) :: fresh(n)) && fired == old(fired) + [job]
        invariant Prepended(added[i..], jobs) == Prepended(added, old(jobs))
        invariant |spine| == i + |old(spine)| && spine[i..] == old(spine)
      {
        Push(added[i]);
        i := i + 1;
      }
    }

    method FindById(id: string, ghost at: nat) returns (node: JobNode?)
      requires Valid() && at < |jobs| && jobs[at].id == id && NoRepeat(IdBag(jobs))
      ensures node == spine[at]
    {
      node := head;
      ghost var i := 0;
      while node != null && node.job.id != id
        invariant 0 <= i <= at && node == spine[i]
        decreases at - i
      {
        node := node.next;
        i := i + 1;
      }
      if i < at {
        IdAt(jobs, i, at);
      }
    }

    method SetRun(node: JobNode, next: int, ghost at: nat) returns (current': JobNode?)
      requires Valid() && at < |spine| && node == spine[at]
      modifies node, this`jobs
      ensures Valid() && Cursor(node, current', at + 1)
      ensures jobs == old(jobs)[..at] + [Rescheduled(old(jobs)[at], next)] + old(jobs)[at + 1..]
    {
      UpdateIs(jobs, at, Rescheduled(jobs[at], next));
      node.job := Rescheduled(node.job, next);
      jobs := jobs[at := Rescheduled(jobs[at], next)];
      current' := node.next;
    }

    /** The list starts anew after a node. */
    method CutBefore(node: JobNode, ghost at: nat)
      requires Valid() && at < |spine| && node == spine[at]
      modifies this`head, this`spine, this`jobs
      ensures Valid()
      ensures jobs == old(jobs)[at + 1..] && spine == old(spine)[at + 1..]
    {
      head := node.next;
      spine := spine[at + 1..];
      jobs := jobs[at + 1..];
    }

    method Unlink(prev: JobNode, node: JobNode, ghost at: nat)
      requires Valid() && 0 < at < |spine| && node == spine[at] && prev == spine[at - 1]
      modifies this`spine, this`jobs, prev`next
      ensures Valid()
      ensures jobs == Without(old(jobs), at) && spine == Without(old(spine), at)
    {
      ghost var was := spine;
      prev.next := node.next;
      spine := Without(spine, at);
      jobs := Without(jobs, at);
      WithoutAt(was, at);
      WithoutAt(old(jobs), at);
      forall i | 0 <= i < |spine| ensures spine[i].job == jobs[i] && spine[i].next == At(i + 1) {
        if i + 1 >= at {
          assert was[i + 1].next == old(At(i + 2));
        }
      }
    }

    method Remove(prev: JobNode?, found: JobNode, ghost at: nat)
      returns (current': JobNode?, ghost at': nat)
      requires Valid() && at < |spine| && found == spine[at]
      requires prev != null ==> at > 0 && prev == spine[at - 1]
      modifies this`head, this`spine, this`jobs, prev
      ensures Valid() && (forall n | n in nodes && n !in old(nodes) :: fresh(n))
      ensures jobs == (if prev == null then [] else old(jobs)[..at]) + old(jobs)[at + 1..]
      ensures at' == (if prev == null then 0 else at) && Cursor(prev, current', at')
    {
      if prev != null {
        WithoutAt(spine, at);
        Unlink(prev, found, at);
        assert prev == spine[at - 1];
        current', at' := prev.next, at;
      } else {
        CutBefore(found, at);
        current', at' := head, 0;
      }
    }

    /** A fired job found again is rescheduled or removed, and the walk goes on behind it. */
    method Settle(prev: JobNode?, found: JobNode, now: int, ghost at: nat)
      returns (prev': JobNode?, current': JobNode?, ghost at': nat)
      requires Valid() && at < |spine| && found == spine[at]
      requires prev != null ==> at > 0 && prev == spine[at - 1]
      modifies this`head, this`spine, this`jobs, prev, found
      ensures Valid() && (forall n | n in nodes && n !in old(nodes) :: fresh(n))
      ensures var settled := Settled(cal, old(jobs)[..at], prev == null, old(jobs)[at], now);
              jobs == settled + old(jobs)[at + 1..] && at' == |settled|
      ensures Cursor(prev', current', at')
    {
      var outcome := Reckon(cal, found.job, now);
      hide AfterRun, Valid, Cursor, At, Rescheduled;
      if outcome.Recurring? {
        current' := SetRun(found, outcome.next, at);
        prev', at' := found, at + 1;
      } else {
        prev' := prev;
        current', at' := Remove(prev, found, at);
      }
    }

    lemma AtCursor(prev: JobNode?, current: JobNode?, at: nat)
      requires Valid() && Cursor(prev, current, at)
      ensures if current == null then at == |jobs|
              else && at < |spine| && at < |jobs| && current == spine[at] && current in nodes && current.job == jobs[at]
                   && Cursor(current, current.next, at + 1)
      ensures |jobs| == |spine| && prev == (if at == 0 then null else spine[at - 1]) && (prev != null ==> prev in nodes)
    {
    }

    /** The callback runs, and its job is found again by its id. */
    method FireAndFind(job: Job, added: seq<Job>, ghost at: nat) returns (found: JobNode?, ghost here: nat)
      requires Valid() && at < |spine| && at < |jobs| && job == jobs[at]
      requires NoRepeat(IdBag(jobs) + IdBag(added))
      modifies this
      ensures Valid() && (forall n | n in nodes && n !in old(nodes) :: fresh(n))
      ensures fired == old(fired) + [old(jobs)[at]]
      ensures jobs == Prepended(added, old(jobs)) && |jobs| == |spine|
      ensures here == |added| + at < |spine| && found == spine[here] == old(spine)[at]
      ensures at > 0 ==> spine[here - 1] == old(spine)[at - 1]
    {
      hide IdBag, NoRepeat;
      here := |added| + at;
      ghost var was := spine;
      PrependedUnique(added, jobs);
      Fire(job, added);
      assert forall i | 0 <= i < |was| :: spine[|added| + i] == was[i];
      found := FindById(job.id, here);
    }

    /** The job under the cursor is due. */
    method FireDue(prev: JobNode?, current: JobNode, now: int, added: seq<Job>, ghost done: seq<Job>, ghost todo: seq<Job>)
      returns (prev': JobNode?, current': JobNode?)
      requires Valid() && jobs == done + todo && todo != [] && Cursor(prev, current, |done|)
      requires NoRepeat(IdBag(jobs) + IdBag(added))
      modifies this, nodes
      ensures Valid() && (forall n | n in nodes && n !in old(nodes) :: fresh(n))
      ensures fired == old(fired) + [todo[0]]
      ensures var kept := Kept(cal, done, todo[0], now, added);
              jobs == kept + todo[1..] && Cursor(prev', current', |kept|)
    {
      AtCursor(prev, current, |done|);
      hide *;
      var found, here := FireAndFind(current.job, added, |done|);
      PrependedParts(added, done, todo);
      KeptIsSettled(cal, done, todo[0], now, added);
      ghost var before := Prepended(added, done);
      assert jobs[..here] == before && jobs[here] == todo[0] && jobs[here + 1..] == todo[1..];
      ghost var at';
      prev', current', at' := Settle(prev, found, now, here);
      assert jobs == Settled(cal, before, prev == null, todo[0], now) + todo[1..];
    }

    /** What holds each time round the walk: the rest of the pass completes the whole. */
    ghost predicate Walking(prev: JobNode?, current: JobNode?, now: int, left: seq<seq<Job>>,
                            done: seq<Job>, todo: seq<Job>, goal: PassResult)
      reads this, nodes
    {
      && Valid() && jobs == done + todo && Cursor(prev, current, |done|)
      && NoRepeat(IdBag(jobs) + IdBag(Flat(left)))
      && Joined(fired, Pass(cal, done, todo, now, left)) == goal
    }

    method PassStep(prev: JobNode?, current: JobNode, now: int, left: seq<seq<Job>>,
                    ghost done: seq<Job>, ghost todo: seq<Job>, ghost goal: PassResult)
      returns (prev': JobNode?, current': JobNode?, left': seq<seq<Job>>, ghost done': seq<Job>, ghost todo': seq<Job>)
      requires Walking(prev, current, now, left, done, todo, goal)
      modifies this, nodes
      ensures Walking(prev', current', now, left', done', todo', goal)
      ensures (forall n | n in nodes && n !in old(nodes) :: fresh(n)) && |todo'| < |todo|
    {
      assert Advances(cal);
      AtCursor(prev, current, |done|);
      PassMoves(cal, fired, done, todo, now, left);
      hide IdBag, NoRepeat, Kept, Flat, Pass, Next, Later, Valid, Cursor, At, Joined, Advances;
      if current.job.nextRun <= now {
        KeptIds(cal, done, todo, now, left);
        prev', current' := FireDue(prev, current, now, Next(left), done, todo);
        done', todo' := Kept(cal, done, todo[0], now, Next(left)), todo[1..];
        left' := Later(left);
      } else {
        MoveOne(done, todo);
        prev', current', left' := current, current.next, left;
        done', todo' := done + [todo[0]], todo[1..];
      }
    }

    /** One pass: every due job fires once, in list order. */
    method RunPass(now: int, arrivals: seq<seq<Job>>)
      requires Valid() && NoRepeat(IdBag(jobs) + IdBag(Flat(arrivals)))
      modifies this, nodes
      ensures Valid() && (forall n | n in nodes && n !in old(nodes) :: fresh(n))
      ensures PassResult(jobs, fired) == Joined(old(fired), Pass(cal, [], old(jobs), now, arrivals))
      ensures NoRepeat(IdBag(jobs))
    {
      assert Advances(cal);
      hide *;
      ghost var goal := Joined(fired, Pass(cal, [], jobs, now, arrivals));
      var prev: JobNode?, current, left := null, head, arrivals;
      ghost var done, todo := [], jobs;
      WalkStarts(now, arrivals);
      while current != null
        invariant Walking(prev, current, now, left, done, todo, goal)
        invariant (forall n | n in nodes && n !in old(nodes) :: fresh(n))
        decreases |todo|
      {
        prev, current, left, done, todo := PassStep(prev, current, now, left, done, todo, goal);
      }
      WalkEnds(prev, now, left, done, todo, goal);
    }

    lemma WalkStarts(now: int, arrivals: seq<seq<Job>>)
      requires Valid() && NoRepeat(IdBag(jobs) + IdBag(Flat(arrivals)))
      ensures Walking(null, head, now, arrivals, [], jobs, Joined(fired, Pass(cal, [], jobs, now, arrivals)))
    {
      assert [] + jobs == jobs;
    }

    lemma WalkEnds(prev: JobNode?, now: int, left: seq<seq<Job>>, done: seq<Job>, todo: seq<Job>, goal: PassResult)
      requires Walking(prev, null, now, left, done, todo, goal)
      ensures Valid() && PassResult(jobs, fired) == goal && NoRepeat(IdBag(jobs))
    {
      FewerRepeat(IdBag(jobs), IdBag(jobs) + IdBag(Flat(left)));
      AtCursor(prev, null, |done|);
      PassEnds(cal, fired, done, todo, now, left);
    }

    method UpdateAt(node: JobNode, job: Job, ghost at: nat)
      requires Valid() && at < |spine| && node == spine[at]
      modifies node, this`jobs
      ensures Valid() && jobs == old(jobs)[at := job]
    {
      node.job := job;
      jobs := jobs[at := job];
    }

    method AddJob(job: Job, now: int) returns (id: Option<string>)
      requires Valid()
      modifies this`head, this`spine, this`jobs, this`nodes, nodes
      ensures Valid() && forall n | n in nodes && n !in old(nodes) :: fresh(n)
      ensures Added(jobs, id) == AddSpec(cal, old(jobs), job, now)
    {
      ghost var was := jobs;
      var current, i := head, 0;
      while current != null && job.name.Some?
        invariant 0 <= i <= |spine| && current == At(i)
        invariant job.name.Some? ==> forall k | 0 <= k < i :: jobs[k].name != job.name
        decreases |spine| - i
      {
        if current.job.name == job.name {
          NameAtIs(jobs, job.name, i);
          var updated := current.job.(schedule := job.schedule, payload := job.payload);
          var outcome := Judge(cal, job.schedule, now);
          hide OutcomeOf;
          UpdateAt(current, Retimed(updated, outcome), i);
          return if outcome.Invalid? then None else Some(updated.id);
        }
        current := current.next;
        i := i + 1;
      }
      assert NameAt(jobs, job.name) == |jobs|;
      var outcome := Judge(cal, job.schedule, now);
      hide OutcomeOf;
      if outcome.Invalid? {
        return None;
      }
      Push(Retimed(job, outcome));
      return Some(job.id);
    }

    /** The walk of a removal: to the first job of that id, with the node before it. */
    method WalkToId(id: string) returns (prev: JobNode?, current: JobNode?, ghost at: nat)
      requires Valid()
      ensures Cursor(prev, current, at) && at == IdIndex(jobs, id)
    {
      prev, current, at := null, head, 0;
      assert Cursor(prev, current, at);
      hide *;
      while current != null && current.job.id != id
        invariant Cursor(prev, current, at) && at <= IdIndex(jobs, id)
        decreases |jobs| - at
      {
        AtCursor(prev, current, at);
        prev, current, at := current, current.next, at + 1;
      }
      AtCursor(prev, current, at);
    }

    method RemoveJob(id: string) returns (found: bool)
      requires Valid()
      modifies this`head, this`spine, this`jobs, nodes
      ensures Valid() && jobs == RemoveSpec(old(jobs), id)
      ensures found <==> exists j :: j in old(jobs) && j.id == id
    {
      hide *;
      ghost var at;
      var prev, current;
      prev, current, at := WalkToId(id);
      AtCursor(prev, current, at);
      RemovesAt(jobs, id);
      if current == null {
        return false;
      }
      ghost var at';
      current, at' := Remove(prev, current, at);
      return true;
    }
  }

  lemma MoveOne(done: seq<Job>, todo: seq<Job>)
    requires todo != []
    ensures done + [todo[0]] + todo[1..] == done + todo
  {
  }

  lemma PassEnds(cal: Calendar, calls: seq<Job>, done: seq<Job>, todo: seq<Job>, now: int, arrivals: seq<seq<Job>>)
    requires Advances(cal) && todo == []
    ensures Joined(calls, Pass(cal, done, todo, now, arrivals)) == PassResult(done + todo, calls)
  {
  }

  // ----- what a pass does, in closed form

  function DueJobs(jobs: seq<Job>, now: int): seq<Job> {
    if jobs == [] then []
    else (if Due(jobs[0], now) then [jobs[0]] else []) + DueJobs(jobs[1..], now)
  }

  /** The jobs of the list after the pass: rescheduled, untouched, or gone. */
  ghost function Survivors(cal: Calendar, jobs: seq<Job>, now: int): seq<Job>
    requires Advances(cal)
  {
    if jobs == [] then []
    else (if Due(jobs[0], now) then Kept(cal, [], jobs[0], now, []) else [jobs[0]]) + Survivors(cal, jobs[1..], now)
  }

  /** How many jobs at the head of the list fire and go away. */
  ghost function Lead(cal: Calendar, jobs: seq<Job>, now: int): nat
    requires Advances(cal)
  {
    if jobs != [] && Due(jobs[0], now) && AfterRun(cal, jobs[0], now).None? then 1 + Lead(cal, jobs[1..], now) else 0
  }

  function After(arrivals: seq<seq<Job>>, n: nat): seq<seq<Job>> {
    if n == 0 then arrivals else After(Later(arrivals), n - 1)
  }

  /** What the first `n` callbacks add, as it stands at the head of the list. */
  function Arrived(arrivals: seq<seq<Job>>, n: nat): seq<Job> {
    if n == 0 then [] else Arrived(Later(arrivals), n - 1) + Prepended(Next(arrivals), [])
  }

  lemma PrependedFirst(added: seq<Job>, jobs: seq<Job>)
    ensures Prepended(added, jobs) == Prepended(added, []) + jobs
  {
    PrependedKeepsTail(added, [], jobs);
    assert [] + jobs == jobs;
  }

  /** The closed form of a pass that has `done` behind it. */
  ghost function Completed(cal: Calendar, done: seq<Job>, todo: seq<Job>, now: int, arrivals: seq<seq<Job>>): PassResult
    requires Advances(cal)
  {
    PassResult(Arrived(arrivals, |DueJobs(todo, now)|) + (done + Survivors(cal, todo, now)), DueJobs(todo, now))
  }

  lemma CompletedSkips(cal: Calendar, done: seq<Job>, todo: seq<Job>, now: int, arrivals: seq<seq<Job>>)
    requires Advances(cal) && todo != [] && !Due(todo[0], now)
    ensures Completed(cal, done, todo, now, arrivals) == Completed(cal, done + [todo[0]], todo[1..], now, arrivals)
  {
    Reassociate(done, [todo[0]], Survivors(cal, todo[1..], now));
    assert [] + DueJobs(todo[1..], now) == DueJobs(todo[1..], now);
    hide Arrived;
  }

  lemma CompletedFires(cal: Calendar, done: seq<Job>, todo: seq<Job>, now: int, arrivals: seq<seq<Job>>)
    requires Advances(cal) && todo != [] && Due(todo[0], now)
    requires done != [] || AfterRun(cal, todo[0], now).Some?
    ensures var kept := Kept(cal, done, todo[0], now, Next(arrivals));
            var rest := Completed(cal, kept, todo[1..], now, Later(arrivals));
            && kept != []
            && Completed(cal, done, todo, now, arrivals) == PassResult(rest.jobs, [todo[0]] + rest.fired)
  {
    var added, rest, n := Next(arrivals), Survivors(cal, todo[1..], now), |DueJobs(todo[1..], now)|;
    KeptSplits(cal, done, todo[0], now, added);
    hide Kept, AfterRun, Prepended, Next;
    FourParts(Arrived(Later(arrivals), n), Prepended(added, []), done, Kept(cal, [], todo[0], now, []), rest);
  }

  /** Once something lies before the walk, nothing that arrives is lost. */
  lemma {:induction false} PassKeepsArrivals(cal: Calendar, done: seq<Job>, todo: seq<Job>, now: int,
                                             arrivals: seq<seq<Job>>)
    requires Advances(cal) && done != []
    ensures Pass(cal, done, todo, now, arrivals) == Completed(cal, done, todo, now, arrivals)
    decreases |todo|
  {
    if todo == [] {
      assert [] + (done + []) == done;
    } else {
      PassUnfolds(cal, done, todo, now, arrivals);
      hide *;
      if !Due(todo[0], now) {
        CompletedSkips(cal, done, todo, now, arrivals);
        PassKeepsArrivals(cal, done + [todo[0]], todo[1..], now, arrivals);
      } else {
        CompletedFires(cal, done, todo, now, arrivals);
        PassKeepsArrivals(cal, Kept(cal, done, todo[0], now, Next(arrivals)), todo[1..], now, Later(arrivals));
      }
    }
  }

  lemma PassUnfolds(cal: Calendar, done: seq<Job>, todo: seq<Job>, now: int, arrivals: seq<seq<Job>>)
    requires Advances(cal) && todo != []
    ensures Pass(cal, done, todo, now, arrivals) ==
            if !Due(todo[0], now) then Pass(cal, done + [todo[0]], todo[1..], now, arrivals)
            else
              var rest := Pass(cal, Kept(cal, done, todo[0], now, Next(arrivals)), todo[1..], now, Later(arrivals));
              PassResult(rest.jobs, [todo[0]] + rest.fired)
  {
    hide Kept, Due, Next, Later;
  }

  lemma FourParts<T>(late: seq<T>, added: seq<T>, done: seq<T>, own: seq<T>, rest: seq<T>)
    ensures late + (added + (done + own) + rest) == (late + added) + (done + (own + rest))
  {
  }

  lemma KeptSplits(cal: Calendar, done: seq<Job>, job: Job, now: int, added: seq<Job>)
    requires Advances(cal) && (done != [] || AfterRun(cal, job, now).Some?)
    ensures Kept(cal, done, job, now, added) ==
            Prepended(added, []) + (done + Kept(cal, [], job, now, []))
    ensures Kept(cal, done, job, now, added) != []
  {
    PrependedFirst(added, done);
    assert Prepended([], []) == [];
    PrependedLength(added, done);
    hide AfterRun, Prepended;
    match AfterRun(cal, job, now) {
      case Some(after) =>
        Reassociate(Prepended(added, []), done, [after]);
        assert [] + [after] == [after];
      case None =>
        assert done + [] == done;
    }
  }

  function Arranged(arrivals: seq<seq<Job>>, lead: nat, fired: seq<Job>, survivors: seq<Job>): PassResult
    requires lead <= |fired|
  {
    PassResult(Arrived(After(arrivals, lead), |fired| - lead) + survivors, fired)
  }

  /** The closed form of a whole pass. */
  ghost function Outline(cal: Calendar, jobs: seq<Job>, now: int, arrivals: seq<seq<Job>>): PassResult
    requires Advances(cal)
  {
    LeadIsDue(cal, jobs, now);
    Arranged(arrivals, Lead(cal, jobs, now), DueJobs(jobs, now), Survivors(cal, jobs, now))
  }

  lemma {:induction false} LeadIsDue(cal: Calendar, jobs: seq<Job>, now: int)
    requires Advances(cal)
    ensures Lead(cal, jobs, now) <= |DueJobs(jobs, now)|
  {
    hide AfterRun;
    if Lead(cal, jobs, now) > 0 {
      LeadIsDue(cal, jobs[1..], now);
    }
  }

  lemma LeadGoes(cal: Calendar, jobs: seq<Job>, now: int, added: seq<Job>)
    requires Advances(cal) && jobs != [] && Due(jobs[0], now) && AfterRun(cal, jobs[0], now).None?
    ensures Kept(cal, [], jobs[0], now, added) == []
    ensures Lead(cal, jobs, now) == 1 + Lead(cal, jobs[1..], now)
    ensures DueJobs(jobs, now) == [jobs[0]] + DueJobs(jobs[1..], now)
    ensures Survivors(cal, jobs, now) == Survivors(cal, jobs[1..], now)
  {
    hide AfterRun, Prepended;
    var rest := Survivors(cal, jobs[1..], now);
    assert [] + rest == rest;
  }

  lemma ArrangedLater(arrivals: seq<seq<Job>>, lead: nat, job: Job, fired: seq<Job>, survivors: seq<Job>)
    requires lead <= |fired|
    ensures var rest := Arranged(Later(arrivals), lead, fired, survivors);
            Arranged(arrivals, 1 + lead, [job] + fired, survivors) == PassResult(rest.jobs, [job] + rest.fired)
  {
    hide Arrived;
  }

  lemma OutlineSkipsLead(cal: Calendar, jobs: seq<Job>, now: int, arrivals: seq<seq<Job>>)
    requires Advances(cal) && jobs != [] && Due(jobs[0], now) && AfterRun(cal, jobs[0], now).None?
    ensures Kept(cal, [], jobs[0], now, Next(arrivals)) == []
    ensures var rest := Outline(cal, jobs[1..], now, Later(arrivals));
            Outline(cal, jobs, now, arrivals) == PassResult(rest.jobs, [jobs[0]] + rest.fired)
  {
    hide Advances, AfterRun, Arranged, Lead, DueJobs, Survivors, Kept, Due, Later, Next;
    LeadGoes(cal, jobs, now, Next(arrivals));
    LeadIsDue(cal, jobs[1..], now);
    ArrangedLater(arrivals, Lead(cal, jobs[1..], now), jobs[0], DueJobs(jobs[1..], now), Survivors(cal, jobs[1..], now));
  }

  lemma OutlineIsCompleted(cal: Calendar, jobs: seq<Job>, now: int, arrivals: seq<seq<Job>>)
    requires Advances(cal) && Lead(cal, jobs, now) == 0
    ensures Outline(cal, jobs, now, arrivals) == Completed(cal, [], jobs, now, arrivals)
  {
    assert [] + Survivors(cal, jobs, now) == Survivors(cal, jobs, now);
    hide Survivors, Arrived, DueJobs;
  }

  /** A whole pass: exactly the due jobs fire, once each and in list order; the list afterwards
      is the survivors behind whatever arrived after the leading jobs that went away. */
  lemma {:induction false} PassExact(cal: Calendar, jobs: seq<Job>, now: int, arrivals: seq<seq<Job>>)
    requires Advances(cal)
    ensures Pass(cal, [], jobs, now, arrivals) == Outline(cal, jobs, now, arrivals)
    decreases |jobs|
  {
    if jobs == [] {
    } else {
      PassUnfolds(cal, [], jobs, now, arrivals);
      hide Pass, Outline, Completed, AfterRun, Kept, Next, Later, Survivors, DueJobs, Arrived, After;
      if !Due(jobs[0], now) {
        OutlineIsCompleted(cal, jobs, now, arrivals);
        CompletedSkips(cal, [], jobs, now, arrivals);
        PassKeepsArrivals(cal, [] + [jobs[0]], jobs[1..], now, arrivals);
      } else if AfterRun(cal, jobs[0], now).Some? {
        OutlineIsCompleted(cal, jobs, now, arrivals);
        CompletedFires(cal, [], jobs, now, arrivals);
        PassKeepsArrivals(cal, Kept(cal, [], jobs[0], now, Next(arrivals)), jobs[1..], now, Later(arrivals));
      } else {
        OutlineSkipsLead(cal, jobs, now, arrivals);
        PassExact(cal, jobs[1..], now, Later(arrivals));
      }
    }
  }

  /** Nothing of the list is due after the pass, and a second pass at that time does nothing. */
  lemma {:induction false} SurvivorsRest(cal: Calendar, jobs: seq<Job>, now: int)
    requires Advances(cal)
    ensures var left := Survivors(cal, jobs, now);
            && (forall j | j in left :: j.nextRun > now)
            && DueJobs(left, now) == [] && Survivors(cal, left, now) == left
  {
    if jobs != [] {
      var job := jobs[0];
      SurvivorsRest(cal, jobs[1..], now);
      if AfterRun(cal, job, now).Some? {
        RecurringIsLater(cal, job.schedule, now, OutcomeOf(cal, job.schedule, now));
      }
      hide OutcomeOf;
      assert Prepended([], []) == [];
      var left := Survivors(cal, jobs, now);
      if left != Survivors(cal, jobs[1..], now) {
        assert left[1..] == Survivors(cal, jobs[1..], now);
      }
    }
  }

  function Total(arrivals: seq<seq<Job>>, n: nat): nat {
    if n == 0 then 0 else |Next(arrivals)| + Total(Later(arrivals), n - 1)
  }

  lemma {:induction false} ArrivedTotal(arrivals: seq<seq<Job>>, n: nat)
    ensures |Arrived(arrivals, n)| == Total(arrivals, n)
  {
    if n > 0 {
      ArrivedTotal(Later(arrivals), n - 1);
      PrependedLength(Next(arrivals), []);
    }
  }

  lemma {:induction false} TotalSplits(arrivals: seq<seq<Job>>, lead: nat, n: nat)
    requires lead <= n
    ensures Total(arrivals, n) == Total(arrivals, lead) + Total(After(arrivals, lead), n - lead)
  {
    if lead > 0 {
      TotalSplits(Later(arrivals), lead - 1, n - 1);
    }
  }

  /** Every job added while callbacks run is kept exactly when none arrives during the callbacks
      of the jobs at the head of the list that fire and go away. */
  lemma NothingLostExact(cal: Calendar, jobs: seq<Job>, now: int, arrivals: seq<seq<Job>>)
    requires Advances(cal)
    ensures |Pass(cal, [], jobs, now, arrivals).jobs| ==
            |Survivors(cal, jobs, now)| + Total(arrivals, |DueJobs(jobs, now)|) <==>
            Total(arrivals, Lead(cal, jobs, now)) == 0
  {
    hide Pass, Survivors, Total, Arrived, After, DueJobs, Lead;
    var n, lead := |DueJobs(jobs, now)|, Lead(cal, jobs, now);
    LeadIsDue(cal, jobs, now);
    PassExact(cal, jobs, now, arrivals);
    ArrivedTotal(After(arrivals, lead), n - lead);
    TotalSplits(arrivals, lead, n);
  }

  /** The jobs added during the first `n` callbacks. */
  function AddedDuring(arrivals: seq<seq<Job>>, n: nat): seq<Job> {
    if n == 0 then [] else Next(arrivals) + AddedDuring(Later(arrivals), n - 1)
  }

  lemma {:induction false} PrependedMembers(added: seq<Job>, jobs: seq<Job>, j: Job)
    ensures j in Prepended(added, jobs) <==> j in added || j in jobs
  {
    if added != [] {
      PrependedMembers(added[1..], [added[0]] + jobs, j);
    }
  }

  lemma InConcat(a: seq<Job>, b: seq<Job>, j: Job)
    ensures j in a + b <==> j in a || j in b
  {
  }

  lemma {:induction false} ArrivedMembers(arrivals: seq<seq<Job>>, n: nat, j: Job)
    ensures j in Arrived(arrivals, n) <==> j in AddedDuring(arrivals, n)
  {
    if n > 0 {
      var later, added := Later(arrivals), Next(arrivals);
      assert Arrived(arrivals, n) == Arrived(later, n - 1) + Prepended(added, []);
      assert AddedDuring(arrivals, n) == added + AddedDuring(later, n - 1);
      hide *;
      ArrivedMembers(later, n - 1, j);
      PrependedMembers(added, [], j);
      InConcat(Arrived(later, n - 1), Prepended(added, []), j);
      InConcat(added, AddedDuring(later, n - 1), j);
    }
  }

  lemma {:induction false} AddedSplits(arrivals: seq<seq<Job>>, lead: nat, n: nat)
    requires lead <= n
    ensures AddedDuring(arrivals, n) == AddedDuring(arrivals, lead) + AddedDuring(After(arrivals, lead), n - lead)
  {
    if lead == 0 {
      assert [] + AddedDuring(arrivals, n) == AddedDuring(arrivals, n);
    } else {
      var later, added := Later(arrivals), Next(arrivals);
      assert AddedDuring(arrivals, n) == added + AddedDuring(later, n - 1);
      assert AddedDuring(arrivals, lead) == added + AddedDuring(later, lead - 1);
      assert After(arrivals, lead) == After(later, lead - 1);
      hide *;
      AddedSplits(later, lead - 1, n - 1);
      Reassociate(added, AddedDuring(later, lead - 1), AddedDuring(After(later, lead - 1), n - lead));
    }
  }

  lemma {:induction false} AddedIds(arrivals: seq<seq<Job>>, n: nat)
    ensures IdBag(AddedDuring(arrivals, n)) <= IdBag(Flat(arrivals))
  {
    if n > 0 {
      hide IdBag;
      AddedIds(Later(arrivals), n - 1);
      FlatIds(arrivals);
      IdBagConcat(Next(arrivals), AddedDuring(Later(arrivals), n - 1));
    } else {
      assert Ids([]) == [];
    }
  }

  lemma {:induction false} SurvivorIds(cal: Calendar, jobs: seq<Job>, now: int)
    requires Advances(cal)
    ensures IdBag(Survivors(cal, jobs, now)) <= IdBag(jobs)
  {
    if jobs != [] {
      var own := if Due(jobs[0], now) then Kept(cal, [], jobs[0], now, []) else [jobs[0]];
      var first, later := [jobs[0]], jobs[1..];
      assert Survivors(cal, jobs, now) == own + Survivors(cal, later, now) && jobs == first + later;
      hide *;
      OwnIds(cal, jobs[0], now);
      SurvivorIds(cal, later, now);
      IdBagConcat(own, Survivors(cal, later, now));
      IdBagConcat(first, later);
    }
  }

  lemma OwnIds(cal: Calendar, job: Job, now: int)
    requires Advances(cal)
    ensures IdBag(Kept(cal, [], job, now, [])) <= IdBag([job])
  {
    assert Prepended([], []) == [];
    SettledIds(cal, [], true, job, now);
    assert Ids([]) == [] && Ids([job]) == [job.id];
    hide Settled;
    assert IdBag([]) == multiset{};
  }

  lemma IdIn(jobs: seq<Job>, j: Job)
    requires j in jobs
    ensures j.id in IdBag(jobs)
  {
    var i :| 0 <= i < |jobs| && jobs[i] == j;
    assert Ids(jobs)[i] == j.id;
  }

  lemma NotTwice(a: multiset<string>, b: multiset<string>, id: string)
    requires NoRepeat(a + b) && id in a
    ensures id !in b
  {
    assert (a + b)[id] == a[id] + b[id];
  }

  /** With distinct ids: a job added during some callback of the pass is in the list afterwards if
      and only if that callback was not one of the leading jobs' that fired and went away. */
  lemma ArrivalKeptExact(cal: Calendar, jobs: seq<Job>, now: int, arrivals: seq<seq<Job>>, j: Job)
    requires Advances(cal) && NoRepeat(IdBag(jobs) + IdBag(Flat(arrivals)))
    requires j in AddedDuring(arrivals, |DueJobs(jobs, now)|)
    ensures j in Pass(cal, [], jobs, now, arrivals).jobs <==> j !in AddedDuring(arrivals, Lead(cal, jobs, now))
  {
    hide *;
    var n, lead := |DueJobs(jobs, now)|, Lead(cal, jobs, now);
    LeadIsDue(cal, jobs, now);
    PassExact(cal, jobs, now, arrivals);
    OutlineIs(cal, jobs, now, arrivals);
    AddedSplits(arrivals, lead, n);
    ArrivedMembers(After(arrivals, lead), n - lead, j);
    var lost, kept, left := AddedDuring(arrivals, lead), AddedDuring(After(arrivals, lead), n - lead), Survivors(cal, jobs, now);
    if j in lost {
      AddedIds(arrivals, n);
      IdBagConcat(lost, kept);
      SurvivorIds(cal, jobs, now);
      FewerRepeat(IdBag(lost) + (IdBag(kept) + IdBag(left)), IdBag(jobs) + IdBag(Flat(arrivals)));
      IdIn(lost, j);
      NotTwice(IdBag(lost), IdBag(kept) + IdBag(left), j.id);
      if j in kept {
        IdIn(kept, j);
      }
      if j in left {
        IdIn(left, j);
      }
    }
  }

  lemma OutlineIs(cal: Calendar, jobs: seq<Job>, now: int, arrivals: seq<seq<Job>>)
    requires Advances(cal)
    ensures var n, lead := |DueJobs(jobs, now)|, Lead(cal, jobs, now);
            lead <= n && Outline(cal, jobs, now, arrivals).jobs ==
              Arrived(After(arrivals, lead), n - lead) + Survivors(cal, jobs, now)
    ensures Outline(cal, jobs, now, arrivals).fired == DueJobs(jobs, now)
  {
    LeadIsDue(cal, jobs, now);
    hide Lead, DueJobs, Survivors, Arrived, After;
  }

  /** A one-time job alone in the list: what its callback schedules is lost with it. */
  lemma LostArrivalExample(cal: Calendar, now: int)
    requires Advances(cal)
    ensures var once := Job("a", None, None, None, now, 0, 0);
            var added := Job("b", None, None, Some("@every 60"), now + 60, 0, 0);
            Pass(cal, [], [once], now, [[added]]) == PassResult([], [once])
  {
    assert OutcomeOf(cal, None, now) == OneTime(now);
    hide OutcomeOf;
  }
}
