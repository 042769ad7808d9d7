/**
 CI wall time: the split of a workflow run's elapsed time into runner queue and execution along
 its critical path, and the repair of whole-hour clock errors in a job's own times from the times
 of its steps. Instants and durations are reals, in seconds.
 */
module WallTime {
  import opened Options

  const HOUR_SECONDS: real := 3600.0
  const STEP_SKEW_SECONDS: real := 60.0

  datatype Job = Job(name: string, conclusion: string, created: real, started: real, completed: real) {
    function RunnerWait(): real { Max0(started - created) }
    function Ran(): real { Max0(completed - started) }
    /** The chronology of a job that waited, then ran. */
    predicate Ordered() { created <= started <= completed }
  }

  datatype Report = Report(path: seq<Job>, elapsed: real, queue: real, execution: real)

  function Max0(x: real): real { if x < 0.0 then 0.0 else x }

  function Abs(x: real): real { if x < 0.0 then -x else x }

  function SumWait(path: seq<Job>): real {
    if path == [] then 0.0 else path[0].RunnerWait() + SumWait(path[1..])
  }

  function SumRan(path: seq<Job>): real {
    if path == [] then 0.0 else path[0].Ran() + SumRan(path[1..])
  }

  // ----- the critical path -----

  /** `max(jobs, key=completed_at)`: the first of the jobs that finish last. */
  function Latest(jobs: seq<Job>): (latest: Job)
    requires jobs != []
    ensures latest in jobs
    ensures forall j :: j in jobs ==> j.completed <= latest.completed
  {
    if |jobs| == 1 then jobs[0]
    else
      var rest := Latest(jobs[1..]);
      if jobs[0].completed >= rest.completed then jobs[0] else rest
  }

  /** `job` finished before `current` and within `epsilon` of the moment `current` became ready. */
  predicate Released(job: Job, current: Job, epsilon: real) {
    job.completed < current.completed && Abs(job.completed - current.created) <= epsilon
  }

  function Predecessors(jobs: seq<Job>, current: Job, epsilon: real): (found: seq<Job>)
    ensures forall j :: j in found <==> j in jobs && Released(j, current, epsilon)
  {
    if jobs == [] then []
    else (if Released(jobs[0], current, epsilon) then [jobs[0]] else [])
         + Predecessors(jobs[1..], current, epsilon)
  }

  /** How many jobs finish before `t`: what the backward walk uses up. */
  ghost function CountBefore(jobs: seq<Job>, t: real): nat {
    if jobs == [] then 0 else (if jobs[0].completed < t then 1 else 0) + CountBefore(jobs[1..], t)
  }

  lemma {:induction false} CountBeforeDrops(jobs: seq<Job>, earlier: Job, t: real)
    requires earlier.completed < t
    ensures CountBefore(jobs, earlier.completed) <= CountBefore(jobs, t)
    ensures earlier in jobs ==> CountBefore(jobs, earlier.completed) < CountBefore(jobs, t)
  {
    if jobs != [] {
      CountBeforeDrops(jobs[1..], earlier, t);
    }
  }

  /** `next` is the dependency of `current` that finished last. */
  ghost predicate Releases(jobs: seq<Job>, next: Job, current: Job, epsilon: real) {
    && next in jobs
    && Released(next, current, epsilon)
    && forall j :: j in jobs && Released(j, current, epsilon) ==> j.completed <= next.completed
  }

  /**
   A run's critical path, oldest job first: it ends with a job that finishes last, every job on it
   was released by the one before, and no job released the first.
   */
  ghost predicate CriticalPath(jobs: seq<Job>, path: seq<Job>, epsilon: real) {
    && path != []
    && path[|path| - 1] in jobs
    && (forall j :: j in jobs ==> j.completed <= path[|path| - 1].completed)
    && (forall i :: 0 < i < |path| ==> LinkedAt(jobs, path, i, epsilon))
    && (forall j :: j in jobs ==> !Released(j, path[0], epsilon))
  }

  ghost predicate LinkedAt(jobs: seq<Job>, path: seq<Job>, i: nat, epsilon: real)
    requires 0 < i < |path|
  {
    Releases(jobs, path[i - 1], path[i], epsilon)
  }

  function Reversed<T>(s: seq<T>): (r: seq<T>)
    ensures |r| == |s|
    ensures forall i :: 0 <= i < |s| ==> r[i] == s[|s| - 1 - i]
  {
    if s == [] then [] else Reversed(s[1..]) + [s[0]]
  }

  /** The walk terminates on every list of jobs and finds a critical path. */
  method Analyze(jobs: seq<Job>, epsilon: real) returns (report: Option<Report>)
    ensures report.None? <==> jobs == []
    ensures report.Some? ==>
              var r := report.value;
              && CriticalPath(jobs, r.path, epsilon)
              && r.elapsed == r.path[|r.path| - 1].completed - r.path[0].created
              && r.queue == (if SumWait(r.path) < r.elapsed then SumWait(r.path) else r.elapsed)
              && r.execution == r.elapsed - r.queue
  {
    if jobs == [] {
      return None;
    }
    var current := Latest(jobs);
    var back := [current];
    while true
      invariant back != [] && back[|back| - 1] == current && current in jobs
      invariant forall j :: j in jobs ==> j.completed <= back[0].completed
      invariant forall i :: 0 < i < |back| ==> LinkedBackAt(jobs, back, i, epsilon)
      invariant back[0] in jobs
      decreases CountBefore(jobs, current.completed)
    {
      var predecessors := Predecessors(jobs, current, epsilon);
      if predecessors == [] {
        break;
      }
      var next := Latest(predecessors);
      CountBeforeDrops(jobs, next, current.completed);
      ghost var shorter := back;
      back := back + [next];
      forall i | 0 < i < |back| ensures LinkedBackAt(jobs, back, i, epsilon) {
        if i < |shorter| {
          assert LinkedBackAt(jobs, shorter, i, epsilon);
        }
      }
      current := next;
    }
    var path := Reversed(back);
    NoneReleased(jobs, current, epsilon);
    ReversedLinks(jobs, back, path, epsilon);
    var elapsed := path[|path| - 1].completed - path[0].created;
    var queue := if SumWait(path) < elapsed then SumWait(path) else elapsed;
    report := Some(Report(path, elapsed, queue, elapsed - queue));
  }

  ghost predicate LinkedBackAt(jobs: seq<Job>, back: seq<Job>, i: nat, epsilon: real)
    requires 0 < i < |back|
  {
    Releases(jobs, back[i], back[i - 1], epsilon)
  }

  lemma NoneReleased(jobs: seq<Job>, current: Job, epsilon: real)
    requires Predecessors(jobs, current, epsilon) == []
    ensures forall j :: j in jobs ==> !Released(j, current, epsilon)
  {
    forall j | j in jobs ensures !Released(j, current, epsilon) {
      assert j !in Predecessors(jobs, current, epsilon);
    }
  }

  lemma ReversedLinks(jobs: seq<Job>, back: seq<Job>, path: seq<Job>, epsilon: real)
    requires |back| == |path| && forall i :: 0 <= i < |back| ==> path[i] == back[|back| - 1 - i]
    requires forall i :: 0 < i < |back| ==> LinkedBackAt(jobs, back, i, epsilon)
    ensures forall i :: 0 < i < |path| ==> LinkedAt(jobs, path, i, epsilon)
  {
    forall i | 0 < i < |path| ensures LinkedAt(jobs, path, i, epsilon) {
      assert LinkedBackAt(jobs, back, |back| - i, epsilon);
    }
  }

  /** Consecutive jobs on a critical path finish in strictly increasing order. */
  lemma {:induction false} CompletionsIncrease(jobs: seq<Job>, path: seq<Job>, epsilon: real, i: nat, j: nat)
    requires CriticalPath(jobs, path, epsilon)
    requires i < j < |path|
    ensures path[i].completed < path[j].completed
    decreases j
  {
    assert LinkedAt(jobs, path, j, epsilon);
    if i < j - 1 {
      CompletionsIncrease(jobs, path, epsilon, i, j - 1);
    }
  }

  lemma {:induction false} SumsNonNegative(path: seq<Job>)
    ensures SumWait(path) >= 0.0 && SumRan(path) >= 0.0
  {
    if path != [] {
      SumsNonNegative(path[1..]);
    }
  }

  /** The gap before the i-th job of a chain is at most epsilon. */
  predicate GapAt(path: seq<Job>, i: nat, epsilon: real)
    requires 0 < i < |path|
  {
    Abs(path[i - 1].completed - path[i].created) <= epsilon
  }

  lemma {:induction false} SumsAppend(path: seq<Job>, job: Job)
    ensures SumWait(path + [job]) == SumWait(path) + job.RunnerWait()
    ensures SumRan(path + [job]) == SumRan(path) + job.Ran()
  {
    if path == [] {
      assert path + [job] == [job];
    } else {
      assert (path + [job])[1..] == path[1..] + [job];
      SumsAppend(path[1..], job);
    }
  }

  /** `epsilon`, n times. */
  function Slack(epsilon: real, n: nat): real {
    if n == 0 then 0.0 else Slack(epsilon, n - 1) + epsilon
  }

  lemma {:induction false} SlackIsProduct(epsilon: real, n: nat)
    ensures Slack(epsilon, n) == epsilon * n as real
  {
    if n > 0 {
      SlackIsProduct(epsilon, n - 1);
      var m := (n - 1) as real;
      assert n as real == m + 1.0;
      assert epsilon * (m + 1.0) == epsilon * m + epsilon;
    }
  }

  /** Waiting and running along a chain of ordered jobs add up to its span, one epsilon per link. */
  lemma {:induction false} SpanOfChain(path: seq<Job>, epsilon: real)
    requires path != []
    requires forall j :: j in path ==> j.Ordered()
    requires forall i :: 0 < i < |path| ==> GapAt(path, i, epsilon)
    ensures Abs(path[|path| - 1].completed - path[0].created - SumWait(path) - SumRan(path))
         <= Slack(epsilon, |path| - 1)
  {
    var n := |path| - 1;
    var front, job := path[..n], path[n];
    assert path == front + [job];
    SumsAppend(front, job);
    assert job.Ordered();
    if n > 0 {
      forall i | 0 < i < |front| ensures GapAt(front, i, epsilon) {
        assert GapAt(path, i, epsilon);
      }
      SpanOfChain(front, epsilon);
      assert GapAt(path, n, epsilon);
    }
  }

  lemma ExecutionWithinSlack(jobs: seq<Job>, r: Report, epsilon: real)
    requires CriticalPath(jobs, r.path, epsilon)
    requires r.elapsed == r.path[|r.path| - 1].completed - r.path[0].created
    requires r.queue == (if SumWait(r.path) < r.elapsed then SumWait(r.path) else r.elapsed)
    requires r.execution == r.elapsed - r.queue
    requires forall j :: j in jobs ==> j.created <= j.completed
    ensures r.elapsed == r.queue + r.execution
    ensures r.queue >= 0.0 && r.execution >= 0.0
    ensures (forall j :: j in r.path ==> j.Ordered()) ==>
              Abs(r.execution - SumRan(r.path)) <= Slack(epsilon, |r.path| - 1)
  {
    var path := r.path;
    SumsNonNegative(path);
    if |path| > 1 {
      CompletionsIncrease(jobs, path, epsilon, 0, |path| - 1);
      assert LinkedAt(jobs, path, 1, epsilon);
    }
    assert path[0] in jobs;
    if forall j :: j in path ==> j.Ordered() {
      forall i | 0 < i < |path| ensures GapAt(path, i, epsilon) {
        assert LinkedAt(jobs, path, i, epsilon);
      }
      SpanOfChain(path, epsilon);
    }
  }

  /**
   The split is exact and non-negative, and for ordered jobs execution is the time spent on
   runners along the path, to within one epsilon per link. Dropping jobs created after they
   finished is what makes the elapsed time non-negative.
   */
  lemma ExecutionIsTimeOnRunners(jobs: seq<Job>, r: Report, epsilon: real)
    requires CriticalPath(jobs, r.path, epsilon)
    requires r.elapsed == r.path[|r.path| - 1].completed - r.path[0].created
    requires r.queue == (if SumWait(r.path) < r.elapsed then SumWait(r.path) else r.elapsed)
    requires r.execution == r.elapsed - r.queue
    requires forall j :: j in jobs ==> j.created <= j.completed
    ensures r.elapsed == r.queue + r.execution
    ensures r.queue >= 0.0 && r.execution >= 0.0
    ensures (forall j :: j in r.path ==> j.Ordered()) ==>
              Abs(r.execution - SumRan(r.path)) <= epsilon * (|r.path| - 1) as real
  {
    ExecutionWithinSlack(jobs, r, epsilon);
    SlackIsProduct(epsilon, |r.path| - 1);
  }

  // ----- whole-hour clock errors -----

  /** Python's `round`: to nearest, ties to even. */
  function Round(x: real): int {
    var f := x.Floor;
    var d := x - f as real;
    if d < 0.5 then f else if d > 0.5 then f + 1 else if f % 2 == 0 then f else f + 1
  }

  /** The whole hours `moment` is ahead of `step`, in seconds, or zero when it is anywhere else. */
  function WholeHoursApart(moment: real, step: real): real {
    var offset := moment - step;
    var hours := Round(offset / HOUR_SECONDS);
    if hours != 0 && Abs(offset - hours as real * HOUR_SECONDS) <= STEP_SKEW_SECONDS
    then hours as real * HOUR_SECONDS
    else 0.0
  }

  datatype Step = Step(started: Option<real>, completed: Option<real>)

  datatype Times = Times(created: real, started: real, completed: real)

  /** The earliest step start, when any step has one. */
  function FirstStart(steps: seq<Step>): Option<real> {
    if steps == [] then None
    else
      match (steps[0].started, FirstStart(steps[1..]))
      case (None, rest) => rest
      case (Some(t), None) => Some(t)
      case (Some(t), Some(u)) => Some(if u < t then u else t)
  }

  /** The latest step finish, when any step has one. */
  function LastFinish(steps: seq<Step>): Option<real> {
    if steps == [] then None
    else
      match (steps[0].completed, LastFinish(steps[1..]))
      case (None, rest) => rest
      case (Some(t), None) => Some(t)
      case (Some(t), Some(u)) => Some(if u > t then u else t)
  }

  function MinOf(s: seq<real>): real
    requires s != []
  {
    if |s| == 1 then s[0] else var m := MinOf(s[1..]); if m < s[0] then m else s[0]
  }

  function MaxOf(s: seq<real>): real
    requires s != []
  {
    if |s| == 1 then s[0] else var m := MaxOf(s[1..]); if m > s[0] then m else s[0]
  }

  lemma {:induction false} MinOfAppend(s: seq<real>, x: real)
    ensures MinOf(s + [x]) == (if s == [] then x else if x < MinOf(s) then x else MinOf(s))
    ensures MaxOf(s + [x]) == (if s == [] then x else if x > MaxOf(s) then x else MaxOf(s))
  {
    if s != [] {
      assert (s + [x])[1..] == s[1..] + [x];
      MinOfAppend(s[1..], x);
    }
  }

  lemma {:induction false} StepsAppend(steps: seq<Step>, step: Step)
    ensures FirstStart(steps + [step])
         == (match (FirstStart(steps), step.started)
             case (None, t) => t
             case (Some(u), None) => Some(u)
             case (Some(u), Some(t)) => Some(if t < u then t else u))
    ensures LastFinish(steps + [step])
         == (match (LastFinish(steps), step.completed)
             case (None, t) => t
             case (Some(u), None) => Some(u)
             case (Some(u), Some(t)) => Some(if t > u then t else u))
  {
    if steps != [] {
      assert (steps + [step])[1..] == steps[1..] + [step];
      StepsAppend(steps[1..], step);
    }
  }

  /** The job's times as its steps correct them. */
  function Trusted(steps: seq<Step>, t: Times): Times {
    var first, last := FirstStart(steps), LastFinish(steps);
    var error := if first.Some? then WholeHoursApart(t.started, first.value) else 0.0;
    var started := t.started - error;
    var created := if first.Some? && t.created > started then t.created - error else t.created;
    var completed := if last.Some? then t.completed - WholeHoursApart(t.completed, last.value) else t.completed;
    Times(created, started, completed)
  }

  method TrustingSteps(steps: seq<Step>, t: Times) returns (r: Times)
    ensures r == Trusted(steps, t)
  {
    var firsts: seq<real>, lasts: seq<real> := [], [];
    var i := 0;
    while i < |steps|
      invariant 0 <= i <= |steps|
      invariant FirstStart(steps[..i]) == (if firsts == [] then None else Some(MinOf(firsts)))
      invariant LastFinish(steps[..i]) == (if lasts == [] then None else Some(MaxOf(lasts)))
    {
      StepsAppend(steps[..i], steps[i]);
      assert steps[..i + 1] == steps[..i] + [steps[i]];
      if steps[i].started.Some? {
        MinOfAppend(firsts, steps[i].started.value);
        firsts := firsts + [steps[i].started.value];
      }
      if steps[i].completed.Some? {
        MinOfAppend(lasts, steps[i].completed.value);
        lasts := lasts + [steps[i].completed.value];
      }
      i := i + 1;
    }
    assert steps[..i] == steps;
    var created, started, completed := t.created, t.started, t.completed;
    if firsts != [] {
      var startedError := WholeHoursApart(started, MinOf(firsts));
      started := started - startedError;
      if created > started {
        created := created - startedError;
      }
    }
    if lasts != [] {
      completed := completed - WholeHoursApart(completed, MaxOf(lasts));
    }
    r := Times(created, started, completed);
  }

  /** A moment within a minute of its step, moved by whole hours, is recognised as moved by just those hours. */
  lemma HoursRecognised(moment: real, step: real, hours: int)
    requires Abs(moment - step) <= STEP_SKEW_SECONDS
    ensures WholeHoursApart(moment + hours as real * HOUR_SECONDS, step) == hours as real * HOUR_SECONDS
  {
    var offset := moment + hours as real * HOUR_SECONDS - step;
    var x := offset / HOUR_SECONDS;
    assert x == (moment - step) / HOUR_SECONDS + hours as real;
    assert -0.5 < x - hours as real < 0.5;
    assert Round(x) == hours;
    assert offset - hours as real * HOUR_SECONDS == moment - step;
  }

  /** The true times of a job: created before it starts, starting and finishing within a minute of its steps. */
  predicate TrueTimes(steps: seq<Step>, t: Times) {
    && t.created <= t.started
    && FirstStart(steps).Some? && Abs(t.started - FirstStart(steps).value) <= STEP_SKEW_SECONDS
    && LastFinish(steps).Some? && Abs(t.completed - LastFinish(steps).value) <= STEP_SKEW_SECONDS
  }

  function Shift(t: real, hours: int): real { t + hours as real * HOUR_SECONDS }

  /**
   Whole-hour errors on the start and the finish, equal or not, are undone exactly. A creation time
   reported truly stays. One carrying the start's error is recovered if and only if there is no
   error or the true runner wait is shorter than it: an error backwards is never seen.
   */
  lemma SkewIsUndone(steps: seq<Step>, t: Times, startHours: int, finishHours: int)
    requires TrueTimes(steps, t)
    ensures var r := Trusted(steps, Times(t.created, Shift(t.started, startHours), Shift(t.completed, finishHours)));
            r == t
    ensures var r := Trusted(steps, Times(Shift(t.created, startHours), Shift(t.started, startHours),
                                          Shift(t.completed, finishHours)));
            && r.started == t.started && r.completed == t.completed
            && (r.created == t.created <==>
                startHours == 0 || t.started - t.created < startHours as real * HOUR_SECONDS)
  {
    HoursRecognised(t.started, FirstStart(steps).value, startHours);
    HoursRecognised(t.completed, LastFinish(steps).value, finishHours);
  }

  lemma NoSecondError(moment: real, step: real)
    ensures WholeHoursApart(moment - WholeHoursApart(moment, step), step) == 0.0
  {
    var error := WholeHoursApart(moment, step);
    if error != 0.0 {
      assert Abs(moment - error - step) <= STEP_SKEW_SECONDS;
      HoursRecognised(moment - error, step, 0);
    }
  }

  /** Correcting twice corrects once, on every input. */
  lemma TrustedIdempotent(steps: seq<Step>, t: Times)
    ensures Trusted(steps, Trusted(steps, t)) == Trusted(steps, t)
  {
    if FirstStart(steps).Some? {
      NoSecondError(t.started, FirstStart(steps).value);
    }
    if LastFinish(steps).Some? {
      NoSecondError(t.completed, LastFinish(steps).value);
    }
  }

  // ----- records -----

  datatype Record = Record(name: string, conclusion: string, created: Option<real>,
                           started: Option<real>, completed: Option<real>, steps: seq<Step>)

  function JobFromRecord(r: Record): (job: Option<Job>)
    ensures job.Some? ==> job.value.created <= job.value.started && job.value.created <= job.value.completed
  {
    if r.conclusion == "skipped" || r.created.None? || r.started.None? || r.completed.None? then None
    else
      var t := Trusted(r.steps, Times(r.created.value, r.started.value, r.completed.value));
      if t.started < t.created || t.completed < t.created then None
      else Some(Job(r.name, r.conclusion, t.created, t.started, t.completed))
  }

  function LoadJobs(records: seq<Record>): (jobs: seq<Job>)
    ensures forall j :: j in jobs ==> j.created <= j.completed
  {
    if records == [] then []
    else
      match JobFromRecord(records[0])
      case None => LoadJobs(records[1..])
      case Some(job) => [job] + LoadJobs(records[1..])
  }

  /** A record whose three own times are off by the same whole hours. */
  function Skewed(r: Record, hours: int): Record
    requires r.created.Some? && r.started.Some? && r.completed.Some?
  {
    r.(created := Some(Shift(r.created.value, hours)),
       started := Some(Shift(r.started.value, hours)),
       completed := Some(Shift(r.completed.value, hours)))
  }

  ghost predicate SkewedRecord(r: Record, seen: Record, hours: nat) {
    && r.created.Some? && r.started.Some? && r.completed.Some?
    && TrueTimes(r.steps, Times(r.created.value, r.started.value, r.completed.value))
    && (hours > 0 ==> r.started.value - r.created.value < hours as real * HOUR_SECONDS)
    && seen == Skewed(r, hours)
  }

  ghost predicate SkewedRun(truth: seq<Record>, seen: seq<Record>, hours: seq<nat>) {
    |truth| == |seen| == |hours| && forall i :: 0 <= i < |truth| ==> SkewedRecord(truth[i], seen[i], hours[i])
  }

  lemma SkewedRecordLoadsTheSame(r: Record, seen: Record, hours: nat)
    requires SkewedRecord(r, seen, hours)
    ensures JobFromRecord(seen) == JobFromRecord(r)
  {
    var t := Times(r.created.value, r.started.value, r.completed.value);
    SkewIsUndone(r.steps, t, hours, hours);
    SkewIsUndone(r.steps, t, 0, 0);
  }

  /** A run reported hours ahead, each job by its own number of hours, loads as the run that happened. */
  lemma {:induction false} SkewedRunLoadsTheSame(truth: seq<Record>, seen: seq<Record>, hours: seq<nat>)
    requires SkewedRun(truth, seen, hours)
    ensures LoadJobs(seen) == LoadJobs(truth)
  {
    if truth != [] {
      assert SkewedRecord(truth[0], seen[0], hours[0]);
      SkewedRecordLoadsTheSame(truth[0], seen[0], hours[0]);
      SkewedRunLoadsTheSame(truth[1..], seen[1..], hours[1..]);
    }
  }
}
