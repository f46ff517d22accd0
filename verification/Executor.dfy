/** The tool executor: a queue of requests served by a pool of workers, and its shutdown. A step
    is what one thread does while it holds the queue mutex, or one finished execution. */
module Executor {
  import opened Wrappers

  datatype Request = Request(id: nat, tool: string, args: string)

  /** A worker is about to test the queue, asleep in the condition wait, executing, or gone. */
  datatype Worker = Ready | Asleep | Running(request: Request) | Exited

  /** `submitted`, `taken` and `called` are histories: requests accepted, dequeued, and called
      back; `late` are those accepted after the last worker left. */
  datatype State = State(queue: seq<Request>, shutdown: bool, workers: seq<Worker>,
                         submitted: seq<Request>, taken: seq<Request>, called: seq<Request>, late: seq<Request>)

  /** Submitting signals one sleeping worker, `wake`; sleepers may also wake by themselves. */
  datatype Event = Submit(request: Request, wake: nat) | Shutdown | Wake(worker: nat) | Poll(worker: nat) | Finish(worker: nat)

  predicate AllExited(ws: seq<Worker>) {
    forall i | 0 <= i < |ws| :: ws[i].Exited?
  }

  function Signalled(ws: seq<Worker>, wake: nat): seq<Worker> {
    if wake < |ws| && ws[wake].Asleep? then ws[wake := Ready] else ws
  }

  function Woken(w: Worker): Worker {
    if w.Asleep? then Ready else w
  }

  function Broadcast(ws: seq<Worker>): seq<Worker> {
    seq(|ws|, i requires 0 <= i < |ws| => Woken(ws[i]))
  }

  predicate Enabled(s: State, e: Event) {
    match e
    case Submit(_, wake) => (exists i | 0 <= i < |s.workers| :: s.workers[i].Asleep?) ==> wake < |s.workers| && s.workers[wake].Asleep?
    case Shutdown => true
    case Wake(j) => j < |s.workers| && s.workers[j].Asleep?
    case Poll(j) => j < |s.workers| && s.workers[j].Ready?
    case Finish(j) => j < |s.workers| && s.workers[j].Running?
  }

  function Step(s: State, e: Event): State
    requires Enabled(s, e)
  {
    match e
    case Submit(r, wake) =>
      s.(queue := s.queue + [r], submitted := s.submitted + [r], workers := Signalled(s.workers, wake),
         late := if AllExited(s.workers) then s.late + [r] else s.late)
    case Shutdown => s.(shutdown := true, workers := Broadcast(s.workers))
    case Wake(j) => s.(workers := s.workers[j := Ready])
    case Poll(j) =>
      if s.queue == [] then s.(workers := s.workers[j := if s.shutdown then Exited else Asleep])
      else s.(queue := s.queue[1..], taken := s.taken + [s.queue[0]], workers := s.workers[j := Running(s.queue[0])])
    case Finish(j) => s.(called := s.called + [s.workers[j].request], workers := s.workers[j := Ready])
  }

  ghost predicate IsRun(s: State, es: seq<Event>)
    decreases |es|
  {
    es == [] || (Enabled(s, es[0]) && IsRun(Step(s, es[0]), es[1..]))
  }

  ghost function After(s: State, es: seq<Event>): State
    requires IsRun(s, es)
    decreases |es|
  {
    if es == [] then s else After(Step(s, es[0]), es[1..])
  }

  /** No count given means two workers. */
  function Start(workers: nat): State {
    State([], false, seq(if workers == 0 then 2 else workers, i => Ready), [], [], [], [])
  }

  // ----- what holds in every run

  ghost function Held(w: Worker): multiset<Request> {
    if w.Running? then multiset{w.request} else multiset{}
  }

  /** The requests being executed. */
  ghost function InWork(ws: seq<Worker>): multiset<Request> {
    if ws == [] then multiset{} else Held(ws[0]) + InWork(ws[1..])
  }

  lemma BagSwap<T>(a: multiset<T>, b: multiset<T>, x: multiset<T>)
    ensures a + x + b == b + x + a
  {
  }

  lemma BagUnder<T>(h: multiset<T>, x: multiset<T>, a: multiset<T>, y: multiset<T>, b: multiset<T>)
    requires x + a == y + b
    ensures h + x + a == h + y + b
  {
    assert h + x + a == h + (x + a) && h + y + b == h + (y + b);
  }

  lemma {:induction false} InWorkUpdate(ws: seq<Worker>, j: nat, w: Worker)
    requires j < |ws|
    ensures InWork(ws[j := w]) + Held(ws[j]) == InWork(ws) + Held(w)
  {
    hide Held;
    var next := ws[j := w];
    if j == 0 {
      assert next[1..] == ws[1..];
      BagSwap(Held(w), Held(ws[0]), InWork(ws[1..]));
    } else {
      InWorkUpdate(ws[1..], j - 1, w);
      assert next[1..] == ws[1..][j - 1 := w] && next[0] == ws[0];
      BagUnder(Held(ws[0]), InWork(next[1..]), Held(ws[j]), InWork(ws[1..]), Held(w));
    }
  }

  lemma {:induction false} InWorkSame(a: seq<Worker>, b: seq<Worker>)
    requires |a| == |b| && forall i | 0 <= i < |a| :: Held(a[i]) == Held(b[i])
    ensures InWork(a) == InWork(b)
  {
    if a != [] {
      InWorkSame(a[1..], b[1..]);
    }
  }

  /** First in, first out; and each accepted request is called back, in work, or queued. */
  ghost predicate Conserved(s: State) {
    && s.submitted == s.taken + s.queue
    && multiset(s.taken) == multiset(s.called) + InWork(s.workers)
  }

  predicate CanAct(w: Worker) {
    w.Ready? || w.Running?
  }

  /** No wake-up is lost, and workers leave only when shutting down with the queue empty. */
  ghost predicate Live(s: State) {
    && s.workers != []
    && (s.queue != [] && !AllExited(s.workers) ==> exists i :: 0 <= i < |s.workers| && CanAct(s.workers[i]))
    && (s.shutdown ==> forall i | 0 <= i < |s.workers| :: !s.workers[i].Asleep?)
    && (!s.shutdown ==> forall i | 0 <= i < |s.workers| :: !s.workers[i].Exited?)
    && s.late == if AllExited(s.workers) then s.queue else []
  }

  lemma BagTakes<T>(all: multiset<T>, rest: multiset<T>, before: multiset<T>, after: multiset<T>, x: multiset<T>)
    requires all == rest + before && after + multiset{} == before + x
    ensures all + x == rest + after
  {
    assert after == before + x;
  }

  lemma BagGives<T>(all: multiset<T>, rest: multiset<T>, before: multiset<T>, after: multiset<T>, x: multiset<T>)
    requires all == rest + before && after + x == before + multiset{}
    ensures all == rest + x + after
  {
    assert before == after + x;
  }

  lemma BagSnoc<T>(s: seq<T>, r: T)
    ensures multiset(s + [r]) == multiset(s) + multiset{r}
  {
  }

  lemma FirstMoves<T>(taken: seq<T>, queue: seq<T>)
    requires queue != []
    ensures taken + [queue[0]] + queue[1..] == taken + queue
  {
  }

  lemma PollConserves(s: State, j: nat)
    requires Enabled(s, Poll(j)) && Conserved(s)
    ensures Conserved(Step(s, Poll(j)))
  {
    var t := Step(s, Poll(j));
    var w := t.workers[j];
    InWorkUpdate(s.workers, j, w);
    assert Held(s.workers[j]) == multiset{};
    if s.queue == [] {
      assert Held(w) == multiset{};
      hide InWork, Held;
      BagTakes(multiset(s.taken), multiset(s.called), InWork(s.workers), InWork(t.workers), multiset{});
    } else {
      var r := s.queue[0];
      assert Held(w) == multiset{r};
      hide InWork, Held;
      FirstMoves(s.taken, s.queue);
      BagSnoc(s.taken, r);
      BagTakes(multiset(s.taken), multiset(s.called), InWork(s.workers), InWork(t.workers), multiset{r});
    }
  }

  lemma FinishConserves(s: State, j: nat)
    requires Enabled(s, Finish(j)) && Conserved(s)
    ensures Conserved(Step(s, Finish(j)))
  {
    var t := Step(s, Finish(j));
    var r := s.workers[j].request;
    InWorkUpdate(s.workers, j, Ready);
    assert Held(s.workers[j]) == multiset{r} && Held(Ready) == multiset{};
    hide InWork, Held;
    BagSnoc(s.called, r);
    BagGives(multiset(s.taken), multiset(s.called), InWork(s.workers), InWork(t.workers), multiset{r});
  }

  predicate SameButSleep(a: seq<Worker>, b: seq<Worker>) {
    |a| == |b| && forall i | 0 <= i < |a| :: a[i] == b[i] || (!a[i].Running? && !b[i].Running?)
  }

  /** Waking sleepers changes nothing that is held. */
  lemma WakingHoldsSame(a: seq<Worker>, b: seq<Worker>)
    requires SameButSleep(a, b)
    ensures InWork(a) == InWork(b)
  {
    hide InWork;
    InWorkSame(a, b);
  }

  lemma SubmitConserves(s: State, r: Request, wake: nat)
    requires Enabled(s, Submit(r, wake)) && Conserved(s)
    ensures Conserved(Step(s, Submit(r, wake)))
  {
    hide InWork, Enabled, AllExited;
    WakingHoldsSame(s.workers, Signalled(s.workers, wake));
    assert s.taken + s.queue + [r] == s.taken + (s.queue + [r]);
  }

  lemma WakeConserves(s: State, e: Event)
    requires Enabled(s, e) && Conserved(s) && (e.Shutdown? || e.Wake?)
    ensures Conserved(Step(s, e))
  {
    hide InWork;
    WakingHoldsSame(s.workers, Step(s, e).workers);
  }

  lemma StepConserves(s: State, e: Event)
    requires Enabled(s, e) && Conserved(s)
    ensures Conserved(Step(s, e))
  {
    hide *;
    match e {
      case Poll(j) => PollConserves(s, j);
      case Finish(j) => FinishConserves(s, j);
      case Submit(r, wake) => SubmitConserves(s, r, wake);
      case Shutdown => WakeConserves(s, e);
      case Wake(j) => WakeConserves(s, e);
    }
  }

  lemma StepStaysLive(s: State, e: Event)
    requires Enabled(s, e) && Live(s)
    ensures Live(Step(s, e))
  {
    var t := Step(s, e);
    match e {
      case Submit(r, wake) =>
        if wake < |s.workers| && s.workers[wake].Asleep? {
          assert CanAct(t.workers[wake]);
          assert !s.workers[wake].Exited?;
        } else if !AllExited(s.workers) {
          var i :| 0 <= i < |s.workers| && !s.workers[i].Exited?;
          assert CanAct(t.workers[i]);
        }
      case Shutdown =>
        if i :| 0 <= i < |s.workers| && !s.workers[i].Exited? {
          assert CanAct(t.workers[i]);
          assert !AllExited(t.workers);
        } else {
          assert t.workers == s.workers;
        }
      case Wake(j) => assert CanAct(t.workers[j]);
      case Poll(j) =>
        if s.queue != [] {
          assert CanAct(t.workers[j]);
        }
      case Finish(j) => assert CanAct(t.workers[j]);
    }
  }

  ghost predicate Inv(s: State) {
    Conserved(s) && Live(s)
  }

  lemma StartInv(n: nat)
    ensures Inv(Start(n))
  {
    var ws := Start(n).workers;
    InWorkIdle(ws);
    assert ws[0] == Ready;
  }

  lemma {:induction false} InWorkIdle(ws: seq<Worker>)
    requires forall i | 0 <= i < |ws| :: !ws[i].Running?
    ensures InWork(ws) == multiset{}
  {
    if ws != [] {
      InWorkIdle(ws[1..]);
    }
  }

  lemma {:induction false} RunKeepsInv(s: State, es: seq<Event>)
    requires Inv(s) && IsRun(s, es)
    ensures Inv(After(s, es))
    decreases |es|
  {
    if es != [] {
      StepConserves(s, es[0]);
      StepStaysLive(s, es[0]);
      RunKeepsInv(Step(s, es[0]), es[1..]);
    }
  }

  /** At every point of every run the queue is served in order and no request is lost or run
      twice. */
  lemma EveryRunConserves(n: nat, es: seq<Event>)
    requires IsRun(Start(n), es)
    ensures var s := After(Start(n), es);
            && s.taken + s.queue == s.submitted
            && multiset(s.submitted) == multiset(s.called) + InWork(s.workers) + multiset(s.queue)
  {
    StartInv(n);
    RunKeepsInv(Start(n), es);
  }

  /** While requests wait and workers are left, some worker can go on: no wake-up is lost. */
  lemma NeverStuck(n: nat, es: seq<Event>)
    requires IsRun(Start(n), es)
    ensures var s := After(Start(n), es);
            s.queue != [] && !AllExited(s.workers) ==>
            exists j :: Enabled(s, Poll(j)) || Enabled(s, Finish(j))
  {
    StartInv(n);
    RunKeepsInv(Start(n), es);
    var s := After(Start(n), es);
    hide IsRun, After, Start, Conserved;
    LiveActs(s);
  }

  lemma LiveActs(s: State)
    requires Live(s)
    ensures s.queue != [] && !AllExited(s.workers) ==>
            exists j :: Enabled(s, Poll(j)) || Enabled(s, Finish(j))
  {
    if s.queue != [] && !AllExited(s.workers) {
      var i :| 0 <= i < |s.workers| && CanAct(s.workers[i]);
      assert Enabled(s, Poll(i)) || Enabled(s, Finish(i));
    }
  }

  lemma ExitedExact(s: State)
    requires Inv(s) && AllExited(s.workers)
    ensures s.shutdown && s.queue == s.late
    ensures multiset(s.submitted) == multiset(s.called) + multiset(s.late)
  {
    InWorkIdle(s.workers);
    assert s.workers[0].Exited?;
  }

  /** Once the workers are gone, what was never called back is exactly what came after the last of
      them left; so nothing is lost if and only if nothing came that late. */
  lemma ShutdownExact(n: nat, es: seq<Event>)
    requires IsRun(Start(n), es) && AllExited(After(Start(n), es).workers)
    ensures var s := After(Start(n), es);
            && s.shutdown && s.queue == s.late
            && multiset(s.submitted) == multiset(s.called) + multiset(s.late)
            && (multiset(s.submitted) == multiset(s.called) <==> s.late == [])
  {
    StartInv(n);
    RunKeepsInv(Start(n), es);
    var s := After(Start(n), es);
    ExitedExact(s);
    assert |multiset(s.submitted)| == |multiset(s.called)| + |multiset(s.late)|;
  }

  // ----- the same over the run itself

  /** A run cut short is a run, and its next event is its next step. */
  lemma {:induction false} RunPrefix(s: State, es: seq<Event>, k: nat)
    requires IsRun(s, es) && k < |es|
    ensures IsRun(s, es[..k]) && Enabled(After(s, es[..k]), es[k]) && IsRun(s, es[..k + 1])
    ensures After(s, es[..k + 1]) == Step(After(s, es[..k]), es[k])
    decreases k
  {
    hide Step, Enabled;
    if k == 0 {
      assert es[..1][1..] == [];
    } else {
      RunPrefix(Step(s, es[0]), es[1..], k - 1);
      assert es[..k][1..] == es[1..][..k - 1] && es[..k + 1][1..] == es[1..][..k];
    }
  }

  /** The state of a run before its k-th event. */
  ghost function Before(s: State, es: seq<Event>, k: nat): State
    requires IsRun(s, es) && k <= |es|
  {
    if k < |es| then RunPrefix(s, es, k); After(s, es[..k]) else After(s, es)
  }

  lemma BeforeNext(s: State, es: seq<Event>, k: nat)
    requires IsRun(s, es) && k < |es|
    ensures Enabled(Before(s, es, k), es[k]) && Before(s, es, k + 1) == Step(Before(s, es, k), es[k])
    ensures Before(s, es, 0) == s
  {
    RunPrefix(s, es, k);
    if k + 1 == |es| {
      assert es[..k + 1] == es;
    }
  }

  /** The k-th event submits a request when no worker is left. */
  ghost predicate TooLate(s: State, es: seq<Event>, k: nat)
    requires IsRun(s, es) && k < |es|
  {
    es[k].Submit? && AllExited(Before(s, es, k).workers)
  }

  lemma {:induction false} LateExact(s: State, es: seq<Event>, k: nat)
    requires IsRun(s, es) && k <= |es| && s.late == []
    ensures Before(s, es, k).late == [] <==> forall i | 0 <= i < k :: !TooLate(s, es, i)
    decreases k
  {
    hide AllExited, Enabled, Signalled, Broadcast, IsRun, Before;
    if k == 0 {
      StartsThere(s, es);
    } else {
      LateExact(s, es, k - 1);
      BeforeNext(s, es, k - 1);
      var was := Before(s, es, k - 1);
      assert Before(s, es, k).late == [] <==> was.late == [] && !TooLate(s, es, k - 1);
    }
  }

  lemma StartsThere(s: State, es: seq<Event>)
    requires IsRun(s, es)
    ensures Before(s, es, 0) == s
  {
    if es != [] {
      BeforeNext(s, es, 0);
    }
  }

  /** Once the workers are gone, some request is never called back if and only if some request
      was submitted when no worker was left. */
  lemma LossExact(n: nat, es: seq<Event>)
    requires IsRun(Start(n), es) && AllExited(After(Start(n), es).workers)
    ensures var s := After(Start(n), es);
            multiset(s.submitted) == multiset(s.called) <==> forall i | 0 <= i < |es| :: !TooLate(Start(n), es, i)
  {
    ShutdownExact(n, es);
    LateExact(Start(n), es, |es|);
  }

  lemma {:induction false} ShutdownCame(s: State, es: seq<Event>, k: nat)
    requires IsRun(s, es) && k <= |es| && !s.shutdown && Before(s, es, k).shutdown
    ensures exists i :: 0 <= i < k && es[i].Shutdown?
    decreases k
  {
    hide AllExited, Enabled, Signalled, Broadcast, IsRun, Before;
    StartsThere(s, es);
    if k > 0 {
      BeforeNext(s, es, k - 1);
      if !es[k - 1].Shutdown? {
        ShutdownCame(s, es, k - 1);
      }
    }
  }

  predicate SubmitsPrecedeShutdown(es: seq<Event>) {
    forall i, j | 0 <= i < j < |es| && es[i].Shutdown? :: !es[j].Submit?
  }

  lemma PrefixInv(n: nat, es: seq<Event>, k: nat)
    requires IsRun(Start(n), es) && k < |es|
    ensures Inv(Before(Start(n), es, k))
  {
    hide Inv, Before;
    RunPrefix(Start(n), es, k);
    StartInv(n);
    RunKeepsInv(Start(n), es[..k]);
    BeforeIs(Start(n), es, k);
  }

  lemma BeforeIs(s: State, es: seq<Event>, k: nat)
    requires IsRun(s, es) && k < |es| && IsRun(s, es[..k])
    ensures Before(s, es, k) == After(s, es[..k])
  {
  }

  /** Shutdown loses no work: with every submission before it, once the workers are gone the
      queue is empty and each request was run and called back exactly once. */
  lemma ShutdownLosesNothing(n: nat, es: seq<Event>)
    requires IsRun(Start(n), es) && AllExited(After(Start(n), es).workers) && SubmitsPrecedeShutdown(es)
    ensures var s := After(Start(n), es);
            s.queue == [] && s.taken == s.submitted && multiset(s.submitted) == multiset(s.called)
  {
    hide IsRun, Before, Inv, AllExited;
    forall i | 0 <= i < |es| ensures !TooLate(Start(n), es, i) {
      if TooLate(Start(n), es, i) {
        PrefixInv(n, es, i);
        ExitedExact(Before(Start(n), es, i));
        ShutdownCame(Start(n), es, i);
      }
    }
    LossExact(n, es);
    ShutdownExact(n, es);
    EveryRunConserves(n, es);
  }

  /** The failing family: shut down, let the only worker leave, then submit. */
  lemma LateRequestExample(r: Request) returns (es: seq<Event>)
    ensures IsRun(Start(1), es) && AllExited(After(Start(1), es).workers)
    ensures After(Start(1), es).submitted == [r] && After(Start(1), es).called == []
  {
    es := [Shutdown, Poll(0), Submit(r, 0)];
    var s1 := Step(Start(1), Shutdown);
    var s2 := Step(s1, Poll(0));
    assert s2.workers == [Exited];
    var later, last := [Poll(0), Submit(r, 0)], [Submit(r, 0)];
    assert es[1..] == later && later[1..] == last && last[1..] == [];
    var s3 := Step(s2, Submit(r, 0));
    assert IsRun(s3, last[1..]) && After(s3, last[1..]) == s3;
    assert IsRun(s2, last) && After(s2, last) == After(s3, last[1..]);
    assert IsRun(s1, later) && After(s1, later) == After(s2, last);
  }

  // ----- a shutdown ends

  function Left(w: Worker): nat {
    match w case Running(_) => 2 case Ready => 1 case Asleep => 1 case Exited => 0
  }

  function LeftOf(ws: seq<Worker>): nat {
    if ws == [] then 0 else Left(ws[0]) + LeftOf(ws[1..])
  }

  /** How many worker steps a shutdown can still take, at most. */
  function Remaining(s: State): nat {
    3 * |s.queue| + LeftOf(s.workers)
  }

  lemma {:induction false} LeftUpdate(ws: seq<Worker>, j: nat, w: Worker)
    requires j < |ws|
    ensures LeftOf(ws[j := w]) + Left(ws[j]) == LeftOf(ws) + Left(w)
  {
    if j == 0 {
      assert ws[j := w][1..] == ws[1..];
    } else {
      LeftUpdate(ws[1..], j - 1, w);
      assert ws[j := w][1..] == ws[1..][j - 1 := w];
    }
  }

  predicate OfWorker(e: Event) {
    e.Poll? || e.Finish?
  }

  /** Whatever the workers do after a shutdown, they are done within a bounded number of steps,
      and they can go on until all have left. */
  lemma {:induction false} ShutdownEnds(s: State, es: seq<Event>)
    requires Inv(s) && s.shutdown && IsRun(s, es) && forall i | 0 <= i < |es| :: OfWorker(es[i])
    ensures |es| <= Remaining(s)
    ensures !AllExited(After(s, es).workers) ==>
              exists e :: OfWorker(e) && Enabled(After(s, es), e)
    decreases |es|
  {
    if es == [] {
      if i :| 0 <= i < |s.workers| && !s.workers[i].Exited? {
        var e := if s.workers[i].Ready? then Poll(i) else Finish(i);
        assert OfWorker(e) && Enabled(s, e);
      }
    } else {
      var e, t := es[0], Step(s, es[0]);
      assert OfWorker(e);
      LeftFalls(s, e);
      StepConserves(s, e);
      StepStaysLive(s, e);
      assert forall i | 0 <= i < |es[1..]| :: es[1..][i] == es[i + 1];
      hide Step, Inv, Remaining, Enabled, OfWorker;
      ShutdownEnds(t, es[1..]);
    }
  }

  lemma LeftFalls(s: State, e: Event)
    requires OfWorker(e) && Enabled(s, e) && s.shutdown
    ensures Remaining(Step(s, e)) < Remaining(s) && Step(s, e).shutdown
  {
    LeftUpdate(s.workers, e.worker, Step(s, e).workers[e.worker]);
  }

  // ----- the executor: a linked queue with head and tail

  class RequestNode {
    const request: Request
    var next: RequestNode?

    constructor (request: Request)
      ensures this.request == request && next == null
    {
      this.request, next := request, null;
    }
  }

  class ToolExecutor {
    var head: RequestNode?
    var tail: RequestNode?
    var shutdown: bool
    const workers: array<Worker>
    ghost var spine: seq<RequestNode>
    ghost var nodes: set<RequestNode>
    ghost var queue: seq<Request>
    ghost var submitted: seq<Request>
    ghost var taken: seq<Request>
    ghost var called: seq<Request>
    ghost var late: seq<Request>

    ghost function At(i: nat): RequestNode?
      reads this`spine
    {
      if i < |spine| then spine[i] else null
    }

    ghost predicate Valid()
      reads this`head, this`tail, this`spine, this`nodes, this`queue, nodes
    {
      && |spine| == |queue| && head == At(0) && tail == (if spine == [] then null else spine[|spine| - 1])
      && (forall i, j | 0 <= i < j < |spine| :: spine[i] != spine[j])
      && (forall i | 0 <= i < |spine| ::
            spine[i] in nodes && spine[i].request == queue[i] && spine[i].next == At(i + 1))
    }

    ghost function View(): State
      reads this, workers
    {
      State(queue, shutdown, workers[..], submitted, taken, called, late)
    }

    constructor (count: nat)
      ensures Valid() && View() == Start(count) && nodes == {} && fresh(workers)
      ensures queue == [] && !shutdown && workers.Length == (if count == 0 then 2 else count)
      ensures forall j | 0 <= j < workers.Length :: workers[j] == Ready
    {
      head, tail, shutdown := null, null, false;
      workers := new Worker[if count == 0 then 2 else count](i => Ready);
      spine, nodes, queue, submitted, taken, called, late := [], {}, [], [], [], [], [];
    }

    method Enqueue(request: Request)
      requires Valid()
      modifies this`head, this`tail, this`spine, this`nodes, this`queue, tail
      ensures Valid() && queue == old(queue) + [request]
      ensures forall n | n in nodes && n !in old(nodes) :: fresh(n)
    {
      var node := new RequestNode(request);
      if tail != null {
        tail.next := node;
      } else {
        head := node;
      }
      tail := node;
      spine, nodes, queue := spine + [node], nodes + {node}, queue + [request];
    }

    method Dequeue() returns (request: Option<Request>)
      requires Valid()
      modifies this`head, this`tail, this`spine, this`queue
      ensures Valid()
      ensures request == if old(queue) == [] then None else Some(old(queue)[0])
      ensures queue == if old(queue) == [] then [] else old(queue)[1..]
    {
      if head == null {
        return None;
      }
      request := Some(head.request);
      head := head.next;
      if head == null {
        tail := null;
      }
      spine, queue := spine[1..], queue[1..];
    }

    /** A request without a tool name is refused; missing arguments are an empty object. */
    method SubmitRequest(id: nat, tool: Option<string>, args: Option<string>, wake: nat) returns (code: int)
      requires Valid() && (tool.Some? ==> Enabled(View(), Submit(Accepted(id, tool, args), wake)))
      modifies this, nodes, workers
      ensures Valid() && forall n | n in nodes && n !in old(nodes) :: fresh(n)
      ensures tool.None? ==> code == -1 && View() == old(View())
      ensures tool.Some? ==> code == 0 && View() == Step(old(View()), Submit(Accepted(id, tool, args), wake))
      ensures tool.Some? ==>
                queue == old(queue) + [Request(id, tool.value, match args case Some(a) => a case None => "{}")]
    {
      assert tail != null ==> tail in nodes;
      hide Valid, AllExited, Enabled, Signalled, Accepted;
      if tool.None? {
        return -1;
      }
      var request := Accepted(id, tool, args);
      Enqueue(request);
      submitted := submitted + [request];
      late := if AllExited(workers[..]) then late + [request] else late;
      Signal(wake);
      return 0;
    }

    method Signal(wake: nat)
      modifies workers
      ensures workers[..] == Signalled(old(workers[..]), wake)
    {
      if wake < workers.Length && workers[wake].Asleep? {
        workers[wake] := Ready;
      }
    }

    method WakeAll()
      modifies workers
      ensures workers[..] == Broadcast(old(workers[..]))
    {
      var i := 0;
      while i < workers.Length
        invariant i <= workers.Length
        invariant forall k | 0 <= k < i :: workers[k] == Woken(old(workers[k]))
        invariant forall k | i <= k < workers.Length :: workers[k] == old(workers[k])
      {
        workers[i] := Woken(workers[i]);
        i := i + 1;
      }
    }

    /** One turn of a worker with the mutex: it sleeps, leaves, or takes the head of the queue. */
    method WorkerPoll(j: nat)
      requires Valid() && Enabled(View(), Poll(j))
      modifies this, workers
      ensures Valid() && nodes == old(nodes) && View() == Step(old(View()), Poll(j))
      ensures old(queue) != [] ==> workers[j] == Running(old(queue)[0]) && queue == old(queue)[1..]
      ensures old(queue) == [] ==> workers[j] == (if shutdown then Exited else Asleep) && queue == []
    {
      assert head == null <==> queue == [];
      hide Valid;
      if head == null && !shutdown {
        workers[j] := Asleep;
        return;
      }
      if shutdown && head == null {
        workers[j] := Exited;
        return;
      }
      var request := Dequeue();
      taken := taken + [request.value];
      workers[j] := Running(request.value);
    }

    /** The tool has run; its callback is called. */
    method WorkerFinish(j: nat)
      requires Valid() && Enabled(View(), Finish(j))
      modifies this`called, workers
      ensures Valid() && View() == Step(old(View()), Finish(j))
      ensures called == old(called) + [old(workers[j]).request] && workers[j] == Ready
    {
      called := called + [workers[j].request];
      workers[j] := Ready;
    }

    method BeginShutdown()
      requires Valid()
      modifies this`shutdown, workers
      ensures Valid() && View() == Step(old(View()), Shutdown)
      ensures shutdown && forall j | 0 <= j < workers.Length ::
                workers[j] == if old(workers[j]) == Asleep then Ready else old(workers[j])
    {
      hide Valid;
      shutdown := true;
      WakeAll();
    }

    /** After the workers have been joined, what is still queued is freed without a callback. */
    method CleanUp() returns (freed: seq<Request>)
      requires Valid() && Inv(View()) && AllExited(workers[..])
      ensures freed == late
      ensures multiset(submitted) == multiset(called) + multiset(freed)
    {
      ExitedExact(View());
      hide Inv, AllExited;
      freed := [];
      var node := head;
      while node != null
        invariant |freed| <= |spine| && node == At(|freed|) && freed == queue[..|freed|]
        decreases |spine| - |freed|
      {
        freed := freed + [node.request];
        node := node.next;
      }
    }
  }

  function Accepted(id: nat, tool: Option<string>, args: Option<string>): Request
    requires tool.Some?
  {
    Request(id, tool.value, if args.Some? then args.value else "{}")
  }
}
