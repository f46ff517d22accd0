/** The synchronous tool call: a waiter with a timeout and a worker's callback share one
    reference-counted context. Steps are what one party does under the context's mutex; freeing
    comes after the mutex is released. */
module SyncWait {
  import opened Wrappers

  datatype Outcome = Finished | TimedOut | SubmitFailed

  /** `left` releases are still owed; `last` says the one just made brought the count to zero. */
  datatype Waiter =
    | Submitting
    | Testing
    | Sleeping
    | Leaving(outcome: Outcome, left: nat)
    | Dropped(outcome: Outcome, left: nat, last: bool)
    | Returned(outcome: Outcome)

  datatype Caller = Absent | Pending | Releasing | Released(last: bool) | Gone

  datatype Party = OfWaiter | OfCallback

  /** `result` and `err` are the caller's variables. `misused` records a touch of the context after
      it was freed, `overrun` a write to the caller's variables after the call returned. */
  datatype State = State(waiter: Waiter, callback: Caller, refs: int, done: bool, timedOut: bool,
                         result: string, err: int, freed: nat, misused: bool, overrun: bool)

  datatype Event =
    | Submitted
    | Refused
    | Test
    | Wake
    | Expire
    | Callback(text: Option<string>, err: int)
    | Release(party: Party)
    | Free(party: Party)

  function Start(result: string): State {
    State(Submitting, Absent, 2, false, false, result, 0, 0, false, false)
  }

  predicate Enabled(timeout: int, s: State, e: Event) {
    match e
    case Submitted => s.waiter.Submitting?
    case Refused => s.waiter.Submitting?
    case Test => s.waiter.Testing?
    case Wake => s.waiter.Sleeping?
    case Expire => s.waiter.Sleeping? && timeout > 0
    case Callback(_, _) => s.callback.Pending?
    case Release(p) => if p.OfWaiter? then s.waiter.Leaving? && s.waiter.left > 0 else s.callback.Releasing?
    case Free(p) => if p.OfWaiter? then s.waiter.Dropped? else s.callback.Released?
  }

  function Touched(s: State): State {
    s.(misused := s.misused || s.freed > 0)
  }

  function Freed(s: State, last: bool): State {
    if last then Touched(s).(freed := s.freed + 1) else s
  }

  function Appended(result: string, text: Option<string>): string {
    result + match text case Some(t) => t case None => ""
  }

  function Step(timeout: int, s: State, e: Event): State
    requires Enabled(timeout, s, e)
  {
    match e
    case Submitted => s.(waiter := Testing, callback := Pending)
    case Refused => s.(waiter := Leaving(SubmitFailed, 2))
    case Test => Touched(s).(waiter := if s.done then Leaving(Finished, 1) else Sleeping)
    case Wake => Touched(s).(waiter := Testing)
    case Expire => Touched(s).(waiter := Leaving(TimedOut, 1), timedOut := true)
    case Callback(text, err) =>
      if s.timedOut then Touched(s).(callback := Releasing)
      else Touched(s).(callback := Releasing, done := true, result := Appended(s.result, text), err := err,
                       overrun := s.overrun || s.waiter.Returned?)
    case Release(p) =>
      var t, last := Touched(s).(refs := s.refs - 1), s.refs - 1 == 0;
      if p.OfWaiter? then t.(waiter := Dropped(s.waiter.outcome, s.waiter.left - 1, last))
      else t.(callback := Released(last))
    case Free(p) =>
      if p.OfWaiter? then
        Freed(s, s.waiter.last).(waiter := if s.waiter.left == 0 then Returned(s.waiter.outcome)
                                           else Leaving(s.waiter.outcome, s.waiter.left))
      else Freed(s, s.callback.last).(callback := Gone)
  }

  ghost predicate IsRun(timeout: int, s: State, es: seq<Event>)
    decreases |es|
  {
    es == [] || (Enabled(timeout, s, es[0]) && IsRun(timeout, Step(timeout, s, es[0]), es[1..]))
  }

  ghost function After(timeout: int, s: State, es: seq<Event>): State
    requires IsRun(timeout, s, es)
    decreases |es|
  {
    if es == [] then s else After(timeout, Step(timeout, s, es[0]), es[1..])
  }

  // ----- what holds in every run

  function WaiterHolds(w: Waiter): nat {
    match w
    case Submitting => 2
    case Testing => 1
    case Sleeping => 1
    case Leaving(_, left) => left
    case Dropped(_, left, _) => left
    case Returned(_) => 0
  }

  function CallbackHolds(c: Caller): nat {
    if c.Pending? || c.Releasing? then 1 else 0
  }

  function Owed(s: State): nat {
    (if s.waiter.Dropped? && s.waiter.last then 1 else 0) + if s.callback.Released? && s.callback.last then 1 else 0
  }

  /** The count is what the parties still hold, and the context is freed once by whoever took it
      to zero. */
  ghost predicate Counted(s: State) {
    && s.refs == WaiterHolds(s.waiter) + CallbackHolds(s.callback)
    && s.freed + Owed(s) == (if s.refs == 0 then 1 else 0)
    && (s.waiter.Leaving? ==> s.waiter.left > 0)
  }

  function OutcomeOf(w: Waiter): Option<Outcome> {
    match w
    case Leaving(o, _) => Some(o)
    case Dropped(o, _, _) => Some(o)
    case Returned(o) => Some(o)
    case _ => None
  }

  /** What the waiter goes away with, and where the callback stands. */
  ghost predicate Agreed(s: State) {
    && (s.timedOut <==> OutcomeOf(s.waiter) == Some(TimedOut))
    && (OutcomeOf(s.waiter) == Some(Finished) ==> s.done)
    && (s.callback.Absent? <==> s.waiter.Submitting? || OutcomeOf(s.waiter) == Some(SubmitFailed))
    && (s.done ==> !s.callback.Pending? && !s.callback.Absent?)
    && (!s.done && !s.callback.Absent? && !s.callback.Pending? ==> s.timedOut)
  }

  ghost predicate Inv(s: State) {
    Counted(s) && Agreed(s) && !s.misused && !s.overrun
  }

  lemma StepKeepsInv(timeout: int, s: State, e: Event)
    requires Inv(s) && Enabled(timeout, s, e)
    ensures Inv(Step(timeout, s, e))
  {
    HolderUses(s);
    match e {
      case Free(p) => assert Owed(s) >= 1 || !(if p.OfWaiter? then s.waiter.last else s.callback.last);
      case Release(p) => assert s.refs >= 1;
      case Test => assert s.freed == 0;
      case Wake => assert s.freed == 0;
      case Expire => assert s.freed == 0;
      case Callback(text, err) => PendingBeforeReturn(s);
      case Submitted =>
      case Refused =>
    }
  }

  /** While the callback may still write, the call has not returned. */
  lemma PendingBeforeReturn(s: State)
    requires Agreed(s) && s.callback.Pending?
    ensures s.waiter.Returned? ==> s.timedOut
  {
    var o := OutcomeOf(s.waiter);
    assert o != Some(Finished) && o != Some(SubmitFailed);
    if s.waiter.Returned? {
      assert o == Some(s.waiter.outcome);
      match s.waiter.outcome {
        case Finished =>
        case TimedOut =>
        case SubmitFailed =>
      }
    }
  }

  /** A party that still holds a reference finds the context alive. */
  lemma HolderUses(s: State)
    requires Counted(s)
    ensures WaiterHolds(s.waiter) > 0 || CallbackHolds(s.callback) > 0 || Owed(s) > 0 ==> s.freed == 0
  {
  }

  /** The callback runs at most once, so what it delivered is the run's one delivery. */
  ghost predicate Delivered(s: State, result: string, text: Option<string>, err: int) {
    if s.done then s.result == Appended(result, text) && s.err == err else s.result == result && s.err == 0
  }

  lemma {:induction false} RunKeepsInv(timeout: int, s: State, es: seq<Event>)
    requires Inv(s) && IsRun(timeout, s, es)
    ensures Inv(After(timeout, s, es))
    decreases |es|
  {
    if es != [] {
      StepKeepsInv(timeout, s, es[0]);
      RunKeepsInv(timeout, Step(timeout, s, es[0]), es[1..]);
    }
  }

  /** Under every interleaving the context is never touched after it is freed, the caller's
      variables are never written after the call returned, and once both parties are gone the
      context has been freed exactly once. */
  lemma EveryRunIsSafe(timeout: int, result: string, es: seq<Event>)
    requires IsRun(timeout, Start(result), es)
    ensures var s := After(timeout, Start(result), es);
            && !s.misused && !s.overrun && s.freed <= 1
            && (s.waiter.Returned? && (s.callback.Gone? || s.callback.Absent?) ==> s.freed == 1)
            && (s.freed == 1 ==> s.refs == 0)
  {
    RunKeepsInv(timeout, Start(result), es);
  }

  predicate Delivers(e: Event, text: Option<string>, err: int) {
    e.Callback? ==> e == Callback(text, err)
  }

  lemma {:induction false} RunDelivers(timeout: int, s: State, es: seq<Event>, result: string, text: Option<string>, err: int)
    requires Inv(s) && IsRun(timeout, s, es) && Delivered(s, result, text, err)
    requires forall i | 0 <= i < |es| :: Delivers(es[i], text, err)
    ensures Delivered(After(timeout, s, es), result, text, err)
    decreases |es|
  {
    if es != [] {
      StepKeepsInv(timeout, s, es[0]);
      assert Delivers(es[0], text, err);
      assert forall i | 0 <= i < |es[1..]| :: es[1..][i] == es[i + 1];
      RunDelivers(timeout, Step(timeout, s, es[0]), es[1..], result, text, err);
    }
  }

  /** What the caller sees: a finished call carries the callback's result and error; a call that
      timed out or was refused leaves the result alone, except that a timeout noticed after the
      callback ran reports the timeout and still leaves the text in the result. */
  lemma ReturnExact(timeout: int, result: string, es: seq<Event>, text: Option<string>, err: int)
    requires IsRun(timeout, Start(result), es) && forall i | 0 <= i < |es| :: Delivers(es[i], text, err)
    requires After(timeout, Start(result), es).waiter.Returned?
    ensures var s := After(timeout, Start(result), es);
            var delivered := result + match text { case Some(t) => t case None => "" };
            match s.waiter.outcome
            case Finished => s.result == delivered && s.err == err
            case SubmitFailed => s.result == result
            case TimedOut => s.result == if s.done then delivered else result
  {
    RunKeepsInv(timeout, Start(result), es);
    RunDelivers(timeout, Start(result), es, result, text, err);
  }

  /** Once the callback has run, a waiter that tests again goes away with its outcome. */
  lemma DoneReturns(timeout: int, s: State)
    requires Inv(s) && s.done && s.waiter.Testing?
    ensures var es := [Test, Release(OfWaiter), Free(OfWaiter)];
            && IsRun(timeout, s, es)
            && var t := After(timeout, s, es);
               t.waiter == Returned(Finished) && t.result == s.result && t.err == s.err && t.refs == s.refs - 1
  {
    var es, later, last := [Test, Release(OfWaiter), Free(OfWaiter)], [Release(OfWaiter), Free(OfWaiter)], [Free(OfWaiter)];
    assert es[1..] == later && later[1..] == last && last[1..] == [];
    var s1 := Step(timeout, s, Test);
    var s2 := Step(timeout, s1, Release(OfWaiter));
    var s3 := Step(timeout, s2, Free(OfWaiter));
    assert IsRun(timeout, s3, []) && After(timeout, s3, []) == s3;
    assert IsRun(timeout, s2, last) && After(timeout, s2, last) == s3;
    assert IsRun(timeout, s1, later) && After(timeout, s1, later) == s3;
  }

  /** Without a timeout the call never times out. */
  lemma {:induction false} NoTimeoutWaits(timeout: int, s: State, es: seq<Event>)
    requires timeout <= 0 && IsRun(timeout, s, es) && OutcomeOf(s.waiter) != Some(TimedOut)
    ensures OutcomeOf(After(timeout, s, es).waiter) != Some(TimedOut)
    decreases |es|
  {
    if es != [] {
      NoTimeoutWaits(timeout, Step(timeout, s, es[0]), es[1..]);
    }
  }

  /** Reading from the front, the callback comes before any expiry. */
  predicate CallbackFirst(es: seq<Event>) {
    es != [] && (es[0].Callback? || (!es[0].Expire? && CallbackFirst(es[1..])))
  }

  lemma {:induction false} DoneExact(timeout: int, s: State, es: seq<Event>)
    requires IsRun(timeout, s, es)
    ensures After(timeout, s, es).done <==> s.done || (!s.timedOut && CallbackFirst(es))
    decreases |es|
  {
    if es != [] {
      var e, t := es[0], Step(timeout, s, es[0]);
      assert t.timedOut <==> s.timedOut || e.Expire?;
      assert t.done <==> s.done || (e.Callback? && !s.timedOut);
      hide Step, Enabled;
      DoneExact(timeout, t, es[1..]);
    }
  }

  /** Exactly when a returned timeout has nevertheless changed the result: the text was not empty
      and the callback came before the expiry. */
  lemma TimeoutWithResultExact(timeout: int, result: string, es: seq<Event>, text: Option<string>, err: int)
    requires IsRun(timeout, Start(result), es) && forall i | 0 <= i < |es| :: Delivers(es[i], text, err)
    requires After(timeout, Start(result), es).waiter == Returned(TimedOut)
    ensures After(timeout, Start(result), es).result != result <==>
            CallbackFirst(es) && text.Some? && text.value != ""
  {
    ReturnExact(timeout, result, es, text, err);
    DoneExact(timeout, Start(result), es);
    if text.Some? {
      assert |result + text.value| == |result| + |text.value|;
    }
    assert result + "" == result;
  }

  /** A run in front of which one more event is put. */
  lemma OneMore(timeout: int, s: State, e: Event, t: State, es: seq<Event>)
    requires Enabled(timeout, s, e) && Step(timeout, s, e) == t && IsRun(timeout, t, es)
    ensures IsRun(timeout, s, [e] + es) && After(timeout, s, [e] + es) == After(timeout, t, es)
  {
    hide Step, Enabled;
    assert ([e] + es)[1..] == es;
  }

  const LATE := Callback(Some("late"), 0)

  function Asleep(callback: Caller, done: bool, result: string): State {
    State(Sleeping, callback, 2, done, false, result, 0, 0, false, false)
  }

  function Expired(waiter: Waiter, refs: int): State {
    State(waiter, Releasing, refs, true, true, "late", 0, 0, false, false)
  }

  lemma LateCallback()
    ensures Enabled(5, Asleep(Pending, false, ""), LATE)
    ensures Step(5, Asleep(Pending, false, ""), LATE) == Asleep(Releasing, true, "late")
  {
    assert "" + "late" == "late";
  }

  lemma ExpirySteps(s: State)
    ensures s == Asleep(Releasing, true, "late") ==>
              Enabled(5, s, Expire) && Step(5, s, Expire) == Expired(Leaving(TimedOut, 1), 2)
    ensures s == Expired(Leaving(TimedOut, 1), 2) ==>
              Enabled(5, s, Release(OfWaiter)) && Step(5, s, Release(OfWaiter)) == Expired(Dropped(TimedOut, 0, false), 1)
    ensures s == Expired(Dropped(TimedOut, 0, false), 1) ==>
              Enabled(5, s, Free(OfWaiter)) && Step(5, s, Free(OfWaiter)) == Expired(Returned(TimedOut), 1)
    ensures IsRun(5, s, []) && After(5, s, []) == s
  {
  }

  /** From the expiry on, with the callback's result written. */
  lemma ExpiryReturns(es: seq<Event>)
    requires es == [Expire] + ([Release(OfWaiter)] + ([Free(OfWaiter)] + []))
    ensures IsRun(5, Asleep(Releasing, true, "late"), es)
    ensures After(5, Asleep(Releasing, true, "late"), es) == Expired(Returned(TimedOut), 1)
  {
    hide *;
    var s1, s2 := Asleep(Releasing, true, "late"), Expired(Leaving(TimedOut, 1), 2);
    var s3, s4 := Expired(Dropped(TimedOut, 0, false), 1), Expired(Returned(TimedOut), 1);
    ExpirySteps(s1);
    ExpirySteps(s2);
    ExpirySteps(s3);
    ExpirySteps(s4);
    OneMore(5, s3, Free(OfWaiter), s4, []);
    OneMore(5, s2, Release(OfWaiter), s3, [Free(OfWaiter)] + []);
    OneMore(5, s1, Expire, s2, [Release(OfWaiter)] + ([Free(OfWaiter)] + []));
  }

  lemma TimeoutWithResultExample()
    ensures var es := [Submitted, Test, LATE, Expire, Release(OfWaiter), Free(OfWaiter)];
            && IsRun(5, Start(""), es)
            && After(5, Start(""), es).waiter == Returned(TimedOut) && After(5, Start(""), es).result == "late"
  {
    var es := [Expire] + ([Release(OfWaiter)] + ([Free(OfWaiter)] + []));
    var s1 := State(Testing, Pending, 2, false, false, "", 0, 0, false, false);
    hide IsRun, After;
    ExpiryReturns(es);
    LateCallback();
    OneMore(5, Asleep(Pending, false, ""), LATE, Asleep(Releasing, true, "late"), es);
    OneMore(5, s1, Test, Asleep(Pending, false, ""), [LATE] + es);
    OneMore(5, Start(""), Submitted, s1, [Test] + ([LATE] + es));
    assert [Submitted] + ([Test] + ([LATE] + es)) == [Submitted, Test, LATE, Expire, Release(OfWaiter), Free(OfWaiter)];
  }

  // ----- the context

  const NANOS := 1_000_000_000

  /** The absolute deadline, with its nanoseconds carried into the seconds. */
  method Deadline(sec: int, nsec: nat, timeout: nat) returns (s: int, ns: nat)
    requires nsec < NANOS
    ensures ns < NANOS && s * NANOS + ns == sec * NANOS + nsec + timeout * 1_000_000
  {
    s := sec + timeout / 1000;
    ns := nsec + timeout % 1000 * 1_000_000;
    assert timeout == timeout / 1000 * 1000 + timeout % 1000;
    if ns >= NANOS {
      s := s + 1;
      ns := ns - NANOS;
    }
  }

  class SyncContext {
    const timeout: int
    var refs: int
    var done: bool
    var timedOut: bool
    var result: string
    var err: int
    ghost var waiter: Waiter
    ghost var callback: Caller
    ghost var freed: nat
    ghost var misused: bool
    ghost var overrun: bool

    ghost function View(): State
      reads this
    {
      State(waiter, callback, refs, done, timedOut, result, err, freed, misused, overrun)
    }

    constructor (result: string, timeout: int)
      ensures View() == Start(result) && this.timeout == timeout
    {
      this.timeout, this.result, err := timeout, result, 0;
      refs, done, timedOut := 2, false, false;
      waiter, callback, freed, misused, overrun := Submitting, Absent, 0, false, false;
    }

    /** One release: the count drops, and whoever takes it to zero must free. */
    method DropReference(ghost party: Party) returns (shouldFree: bool)
      requires Enabled(timeout, View(), Release(party))
      modifies this
      ensures View() == Step(timeout, old(View()), Release(party)) && shouldFree == (refs == 0)
      ensures refs == old(refs) - 1
    {
      misused := misused || freed > 0;
      refs := refs - 1;
      shouldFree := refs == 0;
      if party.OfWaiter? {
        waiter := Dropped(waiter.outcome, waiter.left - 1, refs == 0);
      } else {
        callback := Released(refs == 0);
      }
    }

    /** The callback with the mutex held. */
    method Deliver(text: Option<string>, error: int)
      requires Enabled(timeout, View(), Callback(text, error))
      modifies this
      ensures View() == Step(timeout, old(View()), Callback(text, error))
      ensures timedOut == old(timedOut) && done == (old(done) || !timedOut)
      ensures err == (if timedOut then old(err) else error)
      ensures result == if timedOut || text.None? then old(result) else old(result) + text.value
    {
      misused := misused || freed > 0;
      if !timedOut && text.Some? {
        result := result + text.value;
      }
      if !timedOut {
        err := error;
        overrun := overrun || waiter.Returned?;
      }
      if !timedOut {
        done := true;
      }
      callback := Releasing;
      assert old(result) + "" == old(result);
    }

    /** The test at the head of the wait loop. */
    method TestDone() returns (leave: bool)
      requires Enabled(timeout, View(), Test)
      modifies this`misused, this`waiter
      ensures View() == Step(timeout, old(View()), Test) && leave == done
      ensures waiter == if done then Leaving(Finished, 1) else Sleeping
    {
      misused := misused || freed > 0;
      leave := done;
      waiter := if done then Leaving(Finished, 1) else Sleeping;
    }

    /** The timed wait returns: by its deadline, or for the loop to test again. */
    method WakeUp(expired: bool)
      requires Enabled(timeout, View(), if expired then Expire else Wake)
      modifies this`misused, this`waiter, this`timedOut
      ensures View() == Step(timeout, old(View()), if expired then Expire else Wake)
    {
      misused := misused || freed > 0;
      if expired {
        timedOut := true;
        waiter := Leaving(TimedOut, 1);
      } else {
        waiter := Testing;
      }
    }
  }
}
