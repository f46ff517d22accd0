/** One pass of the scheduler and one change to its list, job by job and field by field. */
module CronPass {
  import opened CronFields
  import opened CronSearch
  import opened CronWorker
  import opened Sequences
  import opened Wrappers

  lemma OutcomeIs(cal: Calendar, schedule: Option<string>, now: int, o: Outcome)
    requires Advances(cal) && IsOutcome(cal, schedule, now, o)
    ensures OutcomeOf(cal, schedule, now) == o
  {
    OutcomeUnique(cal, schedule, now, o, OutcomeOf(cal, schedule, now));
    hide IsOutcome;
  }

  /** A job whose time has not come stays as it is and does not fire. */
  lemma RestingJob(cal: Calendar, job: Job, rest: seq<Job>, now: int)
    requires Advances(cal) && job.nextRun > now
    ensures DueJobs([job] + rest, now) == DueJobs(rest, now)
    ensures Survivors(cal, [job] + rest, now) == [job] + Survivors(cal, rest, now)
    ensures Lead(cal, [job] + rest, now) == 0
  {
    assert ([job] + rest)[1..] == rest;
    assert [] + DueJobs(rest, now) == DueJobs(rest, now);
    hide Kept, AfterRun;
  }

  /** A job whose time has come fires; a recurring schedule gives it its next time and clears
      its retry count and status, any other takes it off the list. */
  lemma FiringJob(cal: Calendar, job: Job, rest: seq<Job>, now: int, o: Outcome)
    requires Advances(cal) && job.nextRun <= now && IsOutcome(cal, job.schedule, now, o)
    ensures DueJobs([job] + rest, now) == [job] + DueJobs(rest, now)
    ensures o.Recurring? ==>
              && Survivors(cal, [job] + rest, now)
                 == [Job(job.id, job.name, job.payload, job.schedule, o.next, 0, 0)] + Survivors(cal, rest, now)
              && Lead(cal, [job] + rest, now) == 0
    ensures !o.Recurring? ==>
              && Survivors(cal, [job] + rest, now) == Survivors(cal, rest, now)
              && Lead(cal, [job] + rest, now) == 1 + Lead(cal, rest, now)
  {
    OutcomeIs(cal, job.schedule, now, o);
    assert ([job] + rest)[1..] == rest;
    assert Prepended([], []) == [] && [] + Survivors(cal, rest, now) == Survivors(cal, rest, now);
    hide IsOutcome, OutcomeOf;
  }

  lemma NoJobs(cal: Calendar, now: int)
    requires Advances(cal)
    ensures DueJobs([], now) == Survivors(cal, [], now) == [] && Lead(cal, [], now) == 0
  {
  }

  // ----- the order of what arrives

  /** The same elements, last one first. */
  predicate IsReverse(r: seq<Job>, s: seq<Job>) {
    |r| == |s| && forall i | 0 <= i < |r| :: r[i] == s[|s| - 1 - i]
  }

  lemma {:induction false} PrependedIs(added: seq<Job>, jobs: seq<Job>)
    ensures var r := Prepended(added, jobs);
            |r| == |added| + |jobs| && IsReverse(r[..|added|], added) && r[|added|..] == jobs
  {
    if added != [] {
      PrependedIs(added[1..], [added[0]] + jobs);
      var r, n := Prepended(added, jobs), |added| - 1;
      assert r[n..] == [added[0]] + jobs;
      assert r[n] == r[n..][0] && r[n + 1..] == r[n..][1..];
      forall i | 0 <= i < |added| ensures r[..|added|][i] == added[n - i] {
        if i < n {
          assert r[..n][i] == added[1..][n - 1 - i];
        }
      }
    }
  }

  lemma ReverseConcat(a: seq<Job>, a': seq<Job>, b: seq<Job>, b': seq<Job>)
    requires IsReverse(a', a) && IsReverse(b', b)
    ensures IsReverse(b' + a', a + b)
  {
  }

  lemma {:induction false} ArrivedIs(arrivals: seq<seq<Job>>, n: nat)
    ensures IsReverse(Arrived(arrivals, n), AddedDuring(arrivals, n))
  {
    if n > 0 {
      var added := Next(arrivals);
      ArrivedIs(Later(arrivals), n - 1);
      PrependedIs(added, []);
      assert Prepended(added, [])[..|added|] == Prepended(added, []);
      hide IsReverse, Arrived, AddedDuring, Prepended;
      ReverseConcat(added, Prepended(added, []), AddedDuring(Later(arrivals), n - 1), Arrived(Later(arrivals), n - 1));
    }
  }

  /** What comes during the next callback follows what came before. */
  lemma {:induction false} AddedNext(arrivals: seq<seq<Job>>, n: nat)
    ensures AddedDuring(arrivals, 0) == []
    ensures AddedDuring(arrivals, n + 1) == AddedDuring(arrivals, n) + if n < |arrivals| then arrivals[n] else []
  {
    if n == 0 {
      assert Next(arrivals) + [] == [] + Next(arrivals);
    } else {
      AddedNext(Later(arrivals), n - 1);
      Reassociate(Next(arrivals), AddedDuring(Later(arrivals), n - 1), if n < |arrivals| then arrivals[n] else []);
    }
  }

  /** A list of what arrived, newest first, without the `lost` oldest of them, then `others`. */
  predicate Holds(jobs: seq<Job>, arrived: seq<Job>, lost: nat, others: seq<Job>) {
    && lost <= |arrived| && |jobs| == |arrived| - lost + |others|
    && IsReverse(jobs[..|arrived| - lost], arrived[lost..]) && jobs[|arrived| - lost..] == others
  }

  /** The list after a pass: what the callbacks added, newest first, then the survivors in
      order; only what came with the leading jobs that went away is missing. */
  lemma PassLeaves(cal: Calendar, jobs: seq<Job>, now: int, arrivals: seq<seq<Job>>)
    requires Advances(cal)
    ensures var r := Pass(cal, [], jobs, now, arrivals);
            && r.fired == DueJobs(jobs, now)
            && Holds(r.jobs, AddedDuring(arrivals, |DueJobs(jobs, now)|),
                     |AddedDuring(arrivals, Lead(cal, jobs, now))|, Survivors(cal, jobs, now))
  {
    hide *;
    var n, lead := |DueJobs(jobs, now)|, Lead(cal, jobs, now);
    LeadIsDue(cal, jobs, now);
    PassExact(cal, jobs, now, arrivals);
    ArrivedIs(After(arrivals, lead), n - lead);
    AddedSplits(arrivals, lead, n);
    OutlineIs(cal, jobs, now, arrivals);
    ReverseInFront(Arrived(After(arrivals, lead), n - lead), Survivors(cal, jobs, now),
                   AddedDuring(arrivals, lead), AddedDuring(After(arrivals, lead), n - lead));
  }

  lemma ReverseInFront(a: seq<Job>, b: seq<Job>, lost: seq<Job>, late: seq<Job>)
    requires IsReverse(a, late)
    ensures Holds(a + b, lost + late, |lost|, b)
  {
    assert (a + b)[..|a|] == a && (lost + late)[|lost|..] == late;
  }

  // ----- adding and removing

  /** A known name: that job keeps its id, counts and place and takes over schedule and payload,
      and the next time unless the schedule is invalid, which is refused afterwards. */
  lemma KnownNameAdded(cal: Calendar, jobs: seq<Job>, job: Job, now: int, at: nat, o: Outcome)
    requires Advances(cal) && IsOutcome(cal, job.schedule, now, o)
    requires at < |jobs| && job.name.Some? && jobs[at].name == job.name
    requires forall i | 0 <= i < at :: jobs[i].name != job.name
    ensures var was, r := jobs[at], AddSpec(cal, jobs, job, now);
            && |r.jobs| == |jobs| && (forall i | 0 <= i < |jobs| && i != at :: r.jobs[i] == jobs[i])
            && r.jobs[at] == Job(was.id, was.name, job.payload, job.schedule,
                                 if o.Invalid? then was.nextRun else o.next, was.retries, was.status)
            && r.id == if o.Invalid? then None else Some(was.id)
  {
    OutcomeIs(cal, job.schedule, now, o);
    NameAtIs(jobs, job.name, at);
    hide IsOutcome, OutcomeOf, NameAt;
  }

  /** A new name, or none: the job goes to the head with its next time, or is refused. */
  lemma NewNameAdded(cal: Calendar, jobs: seq<Job>, job: Job, now: int, o: Outcome)
    requires Advances(cal) && IsOutcome(cal, job.schedule, now, o)
    requires forall j | j in jobs :: job.name.None? || j.name != job.name
    ensures AddSpec(cal, jobs, job, now) ==
            if o.Invalid? then Added(jobs, None)
            else Added([Job(job.id, job.name, job.payload, job.schedule, o.next, job.retries, job.status)] + jobs, Some(job.id))
  {
    OutcomeIs(cal, job.schedule, now, o);
    assert NameAt(jobs, job.name) == |jobs|;
    hide IsOutcome, OutcomeOf, NameAt;
  }

  /** The first job of an id leaves the list; without one the list stays. */
  lemma RemovedIs(jobs: seq<Job>, id: string, at: nat)
    requires at <= |jobs| && (forall i | 0 <= i < at :: jobs[i].id != id) && (at < |jobs| ==> jobs[at].id == id)
    ensures RemoveSpec(jobs, id) == if at < |jobs| then jobs[..at] + jobs[at + 1..] else jobs
  {
    assert IdIndex(jobs, id) == at;
  }
}
