/**
 One run of the delegated merge command against an API that may answer anything, and the exact
 condition under which it writes.
 */
module DelegatedMergeRun {
  import opened Text
  import opened Options
  import opened DelegatedMerge

  /** What a run is given; `login` is the actor's name case-folded. */
  datatype Setup = Setup(policy: Policy, event: Event, login: string, landingConfigured: bool)

  type Replies = nat -> Reply

  // ----- reading the replies -----

  // The calls of a run are, in order: role, queue, pull request, files, two per check, and the
  // pull request again.

  ghost function RoleAnswer(R: Replies): Json { Get(Body(R(0)), KeyRoleName) }

  ghost function QueueAnswer(R: Replies): Json { Get(Body(R(1)), KeyRepository) }

  ghost function HeadSha(R: Replies): string {
    var sha := Get(Get(Body(R(2)), KeyHead), KeySha);
    if sha.Str? then sha.s else ""
  }

  ghost function ChangedFiles(R: Replies): seq<Json> {
    var files := Body(R(3));
    if files.Arr? && FlattenPages(files.items).Ok? then FlattenPages(files.items).value else []
  }

  ghost function Capabilities(s: Setup, R: Replies): set<string> {
    NeededCapabilities(ChangedFiles(R), s.policy)
  }

  /** The required checks in the order they are looked up. */
  ghost function CheckOrder(s: Setup, R: Replies): seq<string> {
    Enumerate(NeededChecks(Capabilities(s, R), s.policy))
  }

  ghost function Refreshed(s: Setup, R: Replies): Json { Body(R(4 + 2 * |CheckOrder(s, R)|)) }

  // ----- the exact condition -----

  /** The comment, the actor's role and the queue allow the merge. */
  ghost predicate ActorValidated(s: Setup, R: Replies) {
    && EventAuthorized(s.event, s.policy) && s.policy.capabilities != map[]
    && RoleAccepted(RoleAnswer(R))
    && QueueReadable(Body(R(1))) && Get(Get(QueueAnswer(R), KeyPullRequest), KeyIsInMergeQueue) == Bool(false)
  }

  /** The pull request is ready and its files are all delegated to this actor. */
  ghost predicate PullValidated(s: Setup, role: string, R: Replies) {
    && PullReady(Body(R(2)), s.policy, s.event.number, HeadSha(R))
    && FilesCovered(Body(R(3)), Get(Body(R(2)), KeyChangedFiles), s.policy)
    && MembershipHeld(role, s.login, Capabilities(s, R), s.policy)
  }

  ghost predicate Validated(s: Setup, R: Replies) {
    ActorValidated(s, R) && PullValidated(s, RoleAnswer(R).s, R)
  }

  /** The newest pull request run for this very head has one job of the check's name, and it succeeded. */
  ghost predicate CheckPassed(p: Policy, check: string, sha: string, runs: Json, jobs: Json) {
    && check in p.checks
    && (exists id :: RunForHead(runs, sha, id))
    && OnlyJobSucceeded(jobs, p.checks[check].jobName)
  }

  ghost predicate CheckPassedAt(p: Policy, order: seq<string>, sha: string, R: Replies, i: nat)
    requires i < |order|
  {
    CheckPassed(p, order[i], sha, Body(R(4 + 2 * i)), Body(R(5 + 2 * i)))
  }

  ghost predicate ChecksPassed(p: Policy, order: seq<string>, sha: string, R: Replies) {
    forall i :: 0 <= i < |order| ==> CheckPassedAt(p, order, sha, R, i)
  }

  /** Unstacked, or the bottom of its stack on a branch with a merge queue. */
  predicate StackLandable(pull: Json, mergeQueue: Json) {
    Get(pull, KeyStack) == Null || (Get(Get(pull, KeyStack), KeyPosition) == Num(1) && mergeQueue != Null)
  }

  ghost predicate Authorized(s: Setup, R: Replies) {
    && Validated(s, R)
    && ChecksPassed(s.policy, CheckOrder(s, R), HeadSha(R), R)
    && LandAuthorized(s, R, Refreshed(s, R))
  }

  /** The write for a pull request read as `pull`: a direct merge only without a queue and without a stack. */
  ghost function LandingCallFor(s: Setup, R: Replies, pull: Json): (call: Call)
    ensures IsLanding(call)
  {
    if Get(pull, KeyStack) != Null then MergeAsync(s.event.number, HeadSha(R), s.policy.mergeMethod)
    else if Get(QueueAnswer(R), KeyMergeQueue) == Null then Merge(s.event.number, HeadSha(R), s.policy.mergeMethod)
    else
      var id := Get(Get(QueueAnswer(R), KeyPullRequest), KeyId);
      Enqueue(if id.Str? then id.s else "", HeadSha(R))
  }

  /** The one write an authorized run makes. */
  ghost function LandingCall(s: Setup, R: Replies): Call { LandingCallFor(s, R, Refreshed(s, R)) }

  // ----- landing -----

  datatype Outcome = Merged(sha: string) | Enqueued | AlreadyQueued

  datatype Strategy = DirectMerge | QueueEnqueue | StackedQueueEnqueue

  function ReadStackPosition(pull: Json): Result<Option<int>> {
    if Get(pull, KeyStack) == Null then Ok(None)
    else
      var stack :- Mapping(Get(pull, KeyStack));
      var position :- PositiveInt(Get(stack, KeyPosition));
      Ok(Some(position))
  }

  function ChooseStrategy(state: QueueState, stackPosition: Option<int>): Result<Strategy> {
    if stackPosition.None? then Ok(if state.queueRequired then QueueEnqueue else DirectMerge)
    else if stackPosition.value != 1 then Refused
    else if !state.queueRequired then Refused
    else Ok(StackedQueueEnqueue)
  }

  /** What the answer to the landing write makes of the run. */
  function LandingOutcome(call: Call, answer: Json): Result<Outcome>
    requires IsLanding(call)
  {
    match call
    case Merge(_, _, _) =>
      var response :- Mapping(answer);
      var _ :- Require(Get(response, KeyMerged) == Bool(true));
      var sha :- NonEmptyString(Get(response, KeySha));
      Ok(Merged(sha))
    case Enqueue(_, _) =>
      var data :- Mapping(answer);
      var payload :- Mapping(Get(data, KeyEnqueuePullRequest));
      var entry :- Mapping(Get(payload, KeyMergeQueueEntry));
      var _ :- NonEmptyString(Get(entry, KeyId));
      Ok(Enqueued)
    case MergeAsync(_, sha, _) =>
      var response :- Mapping(answer);
      var details :- Mapping(Get(response, KeyDetails));
      var status := Get(response, KeyStatus);
      if status == Str("enqueued") then Ok(AlreadyQueued)
      else
        var _ :- Require(status == Str("pending"));
        var _ :- NonEmptyString(Get(details, KeyUuid));
        var _ :- Require(Get(details, KeyExpectedHeadSha) == Str(sha));
        var _ :- Require(Get(details, KeyMergeAction) in {Str("default"), Str("merge_queue")});
        Ok(Enqueued)
  }

  /** Success is reported only for what the answer says: the merge commit, or an entry pinned to this head. */
  lemma LandingOutcomeMeans(call: Call, answer: Json, r: Result<Outcome>)
    requires IsLanding(call) && r == LandingOutcome(call, answer)
    ensures forall sha :: r == Ok(Merged(sha)) <==>
              call.Merge? && Get(answer, KeyMerged) == Bool(true) && Get(answer, KeySha) == Str(sha) && sha != ""
    ensures call.MergeAsync? ==>
              var details, status := Get(answer, KeyDetails), Get(answer, KeyStatus);
              && (r == Ok(Enqueued) <==>
                  && answer.Obj? && details.Obj? && status == Str("pending")
                  && Get(details, KeyUuid).Str? && Get(details, KeyUuid) != Str("")
                  && Get(details, KeyExpectedHeadSha) == Str(call.sha)
                  && Get(details, KeyMergeAction) in {Str("default"), Str("merge_queue")})
              && (r == Ok(AlreadyQueued) <==> answer.Obj? && details.Obj? && status == Str("enqueued"))
    ensures call.Enqueue? ==>
              (r == Ok(Enqueued) <==>
               && answer.Obj? && Get(answer, KeyEnqueuePullRequest).Obj?
               && var entry := Get(Get(answer, KeyEnqueuePullRequest), KeyMergeQueueEntry);
                  entry.Obj? && Get(entry, KeyId).Str? && Get(entry, KeyId) != Str(""))
    ensures (r == Ok(AlreadyQueued) ==> call.MergeAsync?) && (r == Ok(Enqueued) ==> !call.Merge?)
  {
  }

  // ----- the run -----

  ghost function OpeningTrace(s: Setup): seq<Entry> {
    [Entry(Reader, ReadPermission(s.event.actor)), Entry(Reader, ReadQueue(s.event.number)),
     Entry(Reader, ReadPull(s.event.number)), Entry(Reader, ReadFiles(s.event.number))]
  }

  ghost function SelectedRun(runs: Json, sha: string): int {
    if SelectWorkflowRun(runs, sha).Ok? then SelectWorkflowRun(runs, sha).value else 0
  }

  /**
   The lookups of one check, the first the call number `at`: the runs of its workflow, then the jobs
   of the selected run.
   */
  ghost function CheckStep(p: Policy, check: string, sha: string, R: Replies, at: nat): seq<Entry> {
    if check !in p.checks then []
    else [Entry(Reader, ReadRuns(p.checks[check].workflowFile, sha)),
          Entry(Reader, ReadJobs(SelectedRun(Body(R(at)), sha)))]
  }

  ghost function CheckSteps(p: Policy, order: seq<string>, sha: string, R: Replies): (steps: seq<seq<Entry>>)
    ensures |steps| == |order|
  {
    seq(|order|, i requires 0 <= i < |order| => CheckStep(p, order[i], sha, R, 4 + 2 * i))
  }

  ghost function Concat<T>(parts: seq<seq<T>>): seq<T> {
    if parts == [] then [] else parts[0] + Concat(parts[1..])
  }

  ghost function CheckTrace(s: Setup, R: Replies): seq<Entry> {
    Concat(CheckSteps(s.policy, CheckOrder(s, R), HeadSha(R), R))
  }

  /** Every read a run may make, in order. */
  ghost function ReadTrace(s: Setup, R: Replies): seq<Entry> {
    OpeningTrace(s) + CheckTrace(s, R) + [Entry(Reader, ReadPull(s.event.number))]
  }

  lemma {:induction false} ConcatPairs(parts: seq<seq<Entry>>)
    ensures (forall i :: 0 <= i < |parts| ==> forall e :: e in parts[i] ==> IsRead(e)) ==>
            forall e :: e in Concat(parts) ==> IsRead(e)
    ensures (forall i :: 0 <= i < |parts| ==> |parts[i]| == 2) ==> |Concat(parts)| == 2 * |parts|
  {
    if parts != [] {
      ConcatPairs(parts[1..]);
    }
  }

  /** The read trace writes nothing and uses only the read client. */
  lemma ReadTraceReads(s: Setup, R: Replies)
    ensures forall e :: e in ReadTrace(s, R) ==> IsRead(e)
  {
    ChecksAreReads(s.policy, CheckOrder(s, R), HeadSha(R), R);
    var opening, checks, pull := OpeningTrace(s), CheckTrace(s, R), [Entry(Reader, ReadPull(s.event.number))];
    assert forall e :: e in opening ==> IsRead(e);
    assert forall e :: e in pull ==> IsRead(e);
    JoinedReads(opening, checks, pull);
  }

  lemma ChecksAreReads(p: Policy, order: seq<string>, sha: string, R: Replies)
    ensures forall e :: e in Concat(CheckSteps(p, order, sha, R)) ==> IsRead(e)
  {
    ConcatPairs(CheckSteps(p, order, sha, R));
  }

  lemma JoinedReads(a: seq<Entry>, b: seq<Entry>, c: seq<Entry>)
    requires (forall e :: e in a ==> IsRead(e)) && (forall e :: e in b ==> IsRead(e))
    requires (forall e :: e in c ==> IsRead(e))
    ensures forall e :: e in a + b + c ==> IsRead(e)
  {
  }

  datatype Opening = InQueue | Open(role: string, queue: QueueState)

  /** The first two calls. */
  method ValidateActor(s: Setup, wire: Wire) returns (r: Result<Opening>)
    requires wire.log == []
    modifies wire`log
    ensures wire.log <= OpeningTrace(s)[..2]
    ensures r.Ok? && r.value.Open? <==> ActorValidated(s, wire.replies)
    ensures r.Ok? && r.value.Open? ==>
              && wire.log == OpeningTrace(s)[..2]
              && Str(r.value.role) == RoleAnswer(wire.replies)
              && ReadQueueState(Body(wire.replies(1))) == Ok(r.value.queue)
    ensures r == Ok(InQueue) ==>
              AlreadyInQueue(wire.replies)
  {
    if !EventAuthorized(s.event, s.policy) || s.policy.capabilities == map[] {
      return Refused;
    }
    var permission :- wire.Send(Reader, ReadPermission(s.event.actor));
    var role :- AuthorizeRepositoryAccess(permission);
    var answer :- wire.Send(Reader, ReadQueue(s.event.number));
    var queue :- ReadQueueState(answer);
    if queue.inQueue {
      return Ok(InQueue);
    }
    r := Ok(Open(role, queue));
  }

  /** The next two calls: the head and the checks it needs. */
  method ValidatePull(s: Setup, wire: Wire, role: string) returns (r: Result<(string, set<string>)>)
    requires wire.log == OpeningTrace(s)[..2]
    modifies wire`log
    ensures wire.log <= OpeningTrace(s)
    ensures r.Ok? <==> PullValidated(s, role, wire.replies)
    ensures r.Ok? ==>
              && wire.log == OpeningTrace(s)
              && r.value.0 == HeadSha(wire.replies)
              && r.value.1 == NeededChecks(Capabilities(s, wire.replies), s.policy)
  {
    ghost var R := wire.replies;
    var pull :- wire.Send(Reader, ReadPull(s.event.number));
    PullRequestAccepted(pull, s.policy, s.event.number, HeadSha(R));
    var sha :- AuthorizePullRequest(pull, s.policy, s.event.number);
    PullRequestAccepted(pull, s.policy, s.event.number, sha);
    var files :- wire.Send(Reader, ReadFiles(s.event.number));
    var needed :- AuthorizeFiles(files, Get(pull, KeyChangedFiles), s.policy);
    if !MembershipHeld(role, s.login, needed.0, s.policy) {
      return Refused;
    }
    r := Ok((sha, needed.1));
  }

  /** One check: its two calls, and whether it passed. */
  method LookUpCheck(wire: Wire, p: Policy, check: string, sha: string, ghost step: seq<Entry>, ghost verdict: bool)
    returns (passed: bool)
    requires check in p.checks && step == CheckStep(p, check, sha, wire.replies, |wire.log|)
    requires verdict == CheckPassed(p, check, sha, Body(wire.replies(|wire.log|)), Body(wire.replies(|wire.log| + 1)))
    modifies wire`log
    ensures wire.log <= old(wire.log) + step
    ensures passed ==> wire.log == old(wire.log) + step
    ensures passed == verdict
  {
    var runs := wire.Send(Reader, ReadRuns(p.checks[check].workflowFile, sha));
    if runs.Refused? {
      return false;
    }
    SomeRun(runs.value, sha);
    var id := SelectWorkflowRun(runs.value, sha);
    if id.Refused? {
      return false;
    }
    var jobs := wire.Send(Reader, ReadJobs(id.value));
    if jobs.Refused? {
      return false;
    }
    CheckJobAuthorized(jobs.value, p.checks[check].jobName);
    passed := AuthorizeCheckJob(jobs.value, p.checks[check].jobName);
  }

  lemma SomeRun(runs: Json, sha: string)
    ensures SelectWorkflowRun(runs, sha).Ok? <==> exists id :: RunForHead(runs, sha, id)
  {
    if SelectWorkflowRun(runs, sha).Ok? {
      WorkflowRunSelected(runs, sha, SelectWorkflowRun(runs, sha).value);
    }
    if id :| RunForHead(runs, sha, id) {
      WorkflowRunSelected(runs, sha, id);
    }
  }

  /** The i-th check's calls are `steps[i]`, and `verdicts[i]` says whether it passes. */
  ghost predicate ExpectedAt(p: Policy, order: seq<string>, sha: string, R: Replies, steps: seq<seq<Entry>>,
                             verdicts: seq<bool>, i: nat)
    requires i < |order| == |steps| == |verdicts|
  {
    && order[i] in p.checks
    && steps[i] == CheckStep(p, order[i], sha, R, 4 + 2 * i) && |steps[i]| == 2
    && verdicts[i] == CheckPassedAt(p, order, sha, R, i)
  }

  method LookUpCheckAt(wire: Wire, p: Policy, order: seq<string>, sha: string, i: nat, ghost steps: seq<seq<Entry>>,
                       ghost verdicts: seq<bool>)
    returns (passed: bool)
    requires i < |order| == |steps| == |verdicts| && |wire.log| == 4 + 2 * i
    requires ExpectedAt(p, order, sha, wire.replies, steps, verdicts, i)
    modifies wire`log
    ensures wire.log <= old(wire.log) + steps[i]
    ensures passed ==> wire.log == old(wire.log) + steps[i] && |steps[i]| == 2
    ensures passed == verdicts[i]
  {
    passed := LookUpCheck(wire, p, order[i], sha, steps[i], verdicts[i]);
  }

  /** All required checks, in order, until one fails. */
  method LookUpChecks(wire: Wire, p: Policy, order: seq<string>, sha: string, ghost steps: seq<seq<Entry>>,
                      ghost verdicts: seq<bool>)
    returns (passed: bool)
    requires |order| == |steps| == |verdicts| && |wire.log| == 4
    requires forall i :: 0 <= i < |order| ==> ExpectedAt(p, order, sha, wire.replies, steps, verdicts, i)
    modifies wire`log
    ensures wire.log <= old(wire.log) + Concat(steps)
    ensures passed ==> wire.log == old(wire.log) + Concat(steps)
    ensures passed <==> forall i :: 0 <= i < |verdicts| ==> verdicts[i]
  {
    ghost var full := wire.log + Concat(steps);
    var i := 0;
    while i < |order|
      invariant 0 <= i <= |order|
      invariant |wire.log| == 4 + 2 * i
      invariant wire.log + Concat(steps[i..]) == full
      invariant forall k :: 0 <= k < i ==> verdicts[k]
    {
      assert steps[i..][1..] == steps[i + 1..];
      assert full == wire.log + steps[i] + Concat(steps[i + 1..]);
      assert ExpectedAt(p, order, sha, wire.replies, steps, verdicts, i);
      var ok := LookUpCheckAt(wire, p, order, sha, i, steps, verdicts);
      if !ok {
        return false;
      }
      i := i + 1;
    }
    passed := true;
  }

  lemma StrategyChosen(s: Setup, R: Replies, queue: QueueState, pull: Json)
    requires ReadQueueState(Body(R(1))) == Ok(queue)
    ensures StackLandable(pull, Get(QueueAnswer(R), KeyMergeQueue)) <==>
              ReadStackPosition(pull).Ok? && ChooseStrategy(queue, ReadStackPosition(pull).value).Ok?
    ensures StackLandable(pull, Get(QueueAnswer(R), KeyMergeQueue)) ==>
              CallOf(ChooseStrategy(queue, ReadStackPosition(pull).value).value, s, queue,
                     HeadSha(R)) == LandingCallFor(s, R, pull)
  {
  }

  function CallOf(strategy: Strategy, s: Setup, queue: QueueState, sha: string): (call: Call)
    ensures IsLanding(call)
  {
    match strategy
    case DirectMerge => Merge(s.event.number, sha, s.policy.mergeMethod)
    case QueueEnqueue => Enqueue(queue.id, sha)
    case StackedQueueEnqueue => MergeAsync(s.event.number, sha, s.policy.mergeMethod)
  }

  /** The pull request as read again is ready at the same head, and it may land. */
  ghost predicate LandAuthorized(s: Setup, R: Replies, pull: Json) {
    && PullReady(pull, s.policy, s.event.number, HeadSha(R))
    && s.landingConfigured
    && StackLandable(pull, Get(QueueAnswer(R), KeyMergeQueue))
  }

  /** The answer to a landing write, or the failure of the write. */
  function Landed(call: Call, reply: Reply): Result<Outcome>
    requires IsLanding(call)
  {
    if reply.Failed? then Refused else LandingOutcome(call, reply.body)
  }

  /** Reads the pull request again, picks the strategy and writes. */
  method Land(s: Setup, wire: Wire, queue: QueueState, sha: string, ghost pull: Json)
    returns (outcome: Result<Outcome>)
    requires pull == Body(wire.replies(|wire.log|))
    requires sha == HeadSha(wire.replies) && ReadQueueState(Body(wire.replies(1))) == Ok(queue)
    modifies wire`log
    ensures LandAuthorized(s, wire.replies, pull) ==>
              && wire.log == old(wire.log) + [Entry(Reader, ReadPull(s.event.number))]
                             + [Entry(Lander, LandingCallFor(s, wire.replies, pull))]
              && outcome == Landed(LandingCallFor(s, wire.replies, pull), wire.replies(|wire.log| - 1))
    ensures !LandAuthorized(s, wire.replies, pull) ==>
              wire.log == old(wire.log) + [Entry(Reader, ReadPull(s.event.number))] && outcome == Refused
  {
    ghost var R := wire.replies;
    var refreshed :- wire.Send(Reader, ReadPull(s.event.number));
    PullRequestAccepted(refreshed, s.policy, s.event.number, sha);
    var again :- AuthorizePullRequest(refreshed, s.policy, s.event.number);
    if again != sha || !s.landingConfigured {
      return Refused;
    }
    StrategyChosen(s, R, queue, refreshed);
    var position :- ReadStackPosition(refreshed);
    var strategy :- ChooseStrategy(queue, position);
    var call := CallOf(strategy, s, queue, sha);
    var answer := wire.Send(Lander, call);
    outcome := if answer.Refused? then Refused else LandingOutcome(call, answer.value);
  }

  lemma StepsLength(p: Policy, order: seq<string>, sha: string, R: Replies)
    requires forall c :: c in order ==> c in p.checks
    ensures |Concat(CheckSteps(p, order, sha, R))| == 2 * |order|
  {
    var steps := CheckSteps(p, order, sha, R);
    forall i | 0 <= i < |steps| ensures |steps[i]| == 2 {
      assert order[i] in order;
    }
    ConcatPairs(steps);
  }

  /** The second read of the pull request is call `4 + 2 n`. */
  lemma RefreshedAt(s: Setup, R: Replies)
    requires ValidPolicy(s.policy)
    ensures Body(R(4 + |CheckTrace(s, R)|)) == Refreshed(s, R)
  {
    ChecksDefined(s, R);
    StepsLength(s.policy, CheckOrder(s, R), HeadSha(R), R);
  }

  ghost function Verdicts(p: Policy, order: seq<string>, sha: string, R: Replies): (verdicts: seq<bool>)
    ensures |verdicts| == |order|
    ensures (forall i :: 0 <= i < |order| ==> verdicts[i]) <==> ChecksPassed(p, order, sha, R)
  {
    var v := seq(|order|, i requires 0 <= i < |order| => CheckPassedAt(p, order, sha, R, i));
    assert forall i :: 0 <= i < |order| ==> v[i] == CheckPassedAt(p, order, sha, R, i);
    v
  }

  lemma AllExpected(p: Policy, order: seq<string>, sha: string, R: Replies)
    requires forall c :: c in order ==> c in p.checks
    ensures forall i :: 0 <= i < |order| ==>
            ExpectedAt(p, order, sha, R, CheckSteps(p, order, sha, R), Verdicts(p, order, sha, R), i)
  {
  }

  lemma ChecksDefined(s: Setup, R: Replies)
    requires ValidPolicy(s.policy)
    ensures forall c :: c in CheckOrder(s, R) ==> c in s.policy.checks
  {
  }

  /** The checks and the landing, on the calls and verdicts the replies determine. */
  method CheckAndLand(s: Setup, wire: Wire, queue: QueueState, sha: string, order: seq<string>,
                      ghost steps: seq<seq<Entry>>, ghost verdicts: seq<bool>, ghost pull: Json)
    returns (outcome: Result<Outcome>)
    requires |wire.log| == 4 && |order| == |steps| == |verdicts|
    requires forall i :: 0 <= i < |steps| ==> ExpectedAt(s.policy, order, sha, wire.replies, steps, verdicts, i)
    requires pull == Body(wire.replies(4 + |Concat(steps)|))
    requires sha == HeadSha(wire.replies) && ReadQueueState(Body(wire.replies(1))) == Ok(queue)
    modifies wire`log
    ensures AllTrue(verdicts) && LandAuthorized(s, wire.replies, pull) ==>
              && wire.log == old(wire.log) + Concat(steps) + [Entry(Reader, ReadPull(s.event.number))]
                             + [Entry(Lander, LandingCallFor(s, wire.replies, pull))]
              && outcome == Landed(LandingCallFor(s, wire.replies, pull), wire.replies(|wire.log| - 1))
    ensures !(AllTrue(verdicts) && LandAuthorized(s, wire.replies, pull)) ==>
              wire.log <= old(wire.log) + Concat(steps) + [Entry(Reader, ReadPull(s.event.number))] && outcome == Refused
  {
    var passed := LookUpChecks(wire, s.policy, order, sha, steps, verdicts);
    if !passed {
      return Refused;
    }
    outcome := Land(s, wire, queue, sha, pull);
  }

  ghost predicate AllTrue(verdicts: seq<bool>) {
    forall i :: 0 <= i < |verdicts| ==> verdicts[i]
  }

  /** The queue answer says the pull request is already waiting. */
  ghost predicate AlreadyInQueue(R: Replies) {
    Get(Get(QueueAnswer(R), KeyPullRequest), KeyIsInMergeQueue) == Bool(true)
  }

  /**
   An authorized run makes all the reads and exactly one write, last and through the landing
   client, and reports what that write answered. Any other run stops somewhere along the reads.
   */
  ghost predicate RunSpec(s: Setup, R: Replies, log: seq<Entry>, outcome: Result<Outcome>) {
    if Authorized(s, R) then
      && log == ReadTrace(s, R) + [Entry(Lander, LandingCall(s, R))]
      && outcome == Landed(LandingCall(s, R), R(|log| - 1))
    else
      && log <= ReadTrace(s, R)
      && (outcome == Refused || (outcome == Ok(AlreadyQueued) && AlreadyInQueue(R)))
  }

  lemma Stopped(s: Setup, R: Replies, log: seq<Entry>, outcome: Result<Outcome>)
    requires !Validated(s, R) && log <= OpeningTrace(s)
    requires outcome == Refused || (outcome == Ok(AlreadyQueued) && AlreadyInQueue(R))
    ensures RunSpec(s, R, log, outcome)
  {
    assert !Authorized(s, R);
    ReadTraceOpens(s, R, log);
  }

  lemma ReadTraceOpens(s: Setup, R: Replies, log: seq<Entry>)
    requires log <= OpeningTrace(s)
    ensures log <= ReadTrace(s, R)
  {
    var opening, rest := OpeningTrace(s), CheckTrace(s, R) + [Entry(Reader, ReadPull(s.event.number))];
    assert ReadTrace(s, R) == opening + rest;
  }

  /** What the checks and the landing of a validated run establish. */
  ghost predicate Concluded(s: Setup, R: Replies, log: seq<Entry>, outcome: Result<Outcome>, passed: bool, pull: Json) {
    if passed && LandAuthorized(s, R, pull) then
      && log == ReadTrace(s, R) + [Entry(Lander, LandingCallFor(s, R, pull))]
      && outcome == Landed(LandingCallFor(s, R, pull), R(|log| - 1))
    else
      log <= ReadTrace(s, R) && outcome == Refused
  }

  lemma Finished(s: Setup, R: Replies, log: seq<Entry>, outcome: Result<Outcome>, passed: bool)
    requires Validated(s, R)
    requires passed <==> ChecksPassed(s.policy, CheckOrder(s, R), HeadSha(R), R)
    requires Concluded(s, R, log, outcome, passed, Refreshed(s, R))
    ensures RunSpec(s, R, log, outcome)
  {
    assert Authorized(s, R) <==> passed && LandAuthorized(s, R, Refreshed(s, R));
  }

  /** The checks and the landing of a validated run. */
  method Conclude(s: Setup, wire: Wire, queue: QueueState, sha: string, checks: set<string>)
    returns (outcome: Result<Outcome>, ghost passed: bool)
    requires ValidPolicy(s.policy) && wire.log == OpeningTrace(s)
    requires sha == HeadSha(wire.replies) && ReadQueueState(Body(wire.replies(1))) == Ok(queue)
    requires checks == NeededChecks(Capabilities(s, wire.replies), s.policy)
    modifies wire`log
    ensures passed <==> ChecksPassed(s.policy, CheckOrder(s, wire.replies), sha, wire.replies)
    ensures Concluded(s, wire.replies, wire.log, outcome, passed, Refreshed(s, wire.replies))
  {
    ghost var R := wire.replies;
    var order := SortedMembers(checks);
    ghost var steps, verdicts := CheckSteps(s.policy, order, sha, R), Verdicts(s.policy, order, sha, R);
    ChecksDefined(s, R);
    AllExpected(s.policy, order, sha, R);
    RefreshedAt(s, R);
    passed := AllTrue(verdicts);
    assert CheckTrace(s, R) == Concat(steps);
    outcome := CheckAndLand(s, wire, queue, sha, order, steps, verdicts, Refreshed(s, R));
  }

  /** Whatever the API answers, a run writes if and only if the answers authorize it. */
  method Run(s: Setup, wire: Wire) returns (outcome: Result<Outcome>)
    requires wire.log == [] && ValidPolicy(s.policy)
    modifies wire`log
    ensures RunSpec(s, wire.replies, wire.log, outcome)
  {
    ghost var R := wire.replies;
    var opening := ValidateActor(s, wire);
    if opening.Refused? {
      Stopped(s, R, wire.log, Refused);
      return Refused;
    }
    if opening.value.InQueue? {
      Stopped(s, R, wire.log, Ok(AlreadyQueued));
      return Ok(AlreadyQueued);
    }
    var head := ValidatePull(s, wire, opening.value.role);
    if head.Refused? {
      Stopped(s, R, wire.log, Refused);
      return Refused;
    }
    ghost var passed;
    outcome, passed := Conclude(s, wire, opening.value.queue, head.value.0, head.value.1);
    Finished(s, R, wire.log, outcome, passed);
  }

  // ----- what a write implies -----

  /** The head a landing call is pinned to. */
  function PinnedSha(c: Call): string
    requires IsLanding(c)
  {
    c.sha
  }

  /** Calls other than the i-th only read. */
  ghost predicate OnlyWrite(log: seq<Entry>, i: nat)
    requires i < |log|
  {
    && i == |log| - 1 && log[i].client == Lander
    && forall k :: 0 <= k < i ==> IsRead(log[k])
  }

  lemma WriteIsLast(s: Setup, R: Replies, log: seq<Entry>, outcome: Result<Outcome>, i: nat)
    requires RunSpec(s, R, log, outcome) && i < |log| && IsLanding(log[i].call)
    ensures Authorized(s, R) && log[i].call == LandingCall(s, R) && OnlyWrite(log, i)
  {
    ReadTraceReads(s, R);
    var trace := ReadTrace(s, R);
    assert forall k :: 0 <= k < |trace| ==> trace[k] in trace;
    assert forall k :: 0 <= k < |trace| && k < |log| ==> log[k] == trace[k];
  }

  /**
   If a run writes at all, it writes once, last, and with the landing client; the write is pinned
   to the head both pull request reads showed; a direct merge means no queue and no stack was
   seen; an asynchronous one is the bottom of a stack over a queue.
   */
  lemma LandingIsPinned(s: Setup, R: Replies, log: seq<Entry>, outcome: Result<Outcome>, i: nat)
    requires RunSpec(s, R, log, outcome) && i < |log| && IsLanding(log[i].call)
    ensures OnlyWrite(log, i)
    ensures var sha := Str(PinnedSha(log[i].call));
            Get(Get(Body(R(2)), KeyHead), KeySha) == sha && Get(Get(Refreshed(s, R), KeyHead), KeySha) == sha
    ensures var queue, stack := Get(QueueAnswer(R), KeyMergeQueue), Get(Refreshed(s, R), KeyStack);
            && (log[i].call.Merge? ==> queue == Null && stack == Null)
            && (log[i].call.Enqueue? ==> queue != Null && stack == Null)
            && (log[i].call.MergeAsync? ==> queue != Null && Get(stack, KeyPosition) == Num(1))
  {
    WriteIsLast(s, R, log, outcome, i);
  }

  /** The actor may merge changes to `name`: an admin, or a member of every capability that matches it. */
  ghost predicate MayMerge(s: Setup, R: Replies, name: string) {
    RoleAnswer(R) == Str("admin") || forall c :: c in Matching(name, s.policy) ==>
        s.login in s.policy.capabilities[c].members
  }

  /** If a run writes, every new and previous name of every changed file is covered and the actor's to merge. */
  lemma LandingCoversEveryName(s: Setup, R: Replies, log: seq<Entry>, outcome: Result<Outcome>, i: nat, entry: Json,
                               name: string)
    requires RunSpec(s, R, log, outcome) && i < |log| && IsLanding(log[i].call)
    requires entry in ChangedFiles(R) && Names(entry, name)
    ensures NameCovered(name, s.policy) && MayMerge(s, R, name)
  {
    WriteIsLast(s, R, log, outcome, i);
    assert NameCovered(name, s.policy) by {
      assert EntriesCovered(ChangedFiles(R), s.policy);
    }
    forall c | c in Matching(name, s.policy) ensures c in Capabilities(s, R) {
    }
  }

  lemma {:induction false} PairInConcat(parts: seq<seq<Entry>>, k: nat)
    requires k < |parts| && forall i :: 0 <= i < |parts| ==> |parts[i]| == 2
    ensures |Concat(parts)| == 2 * |parts| && Concat(parts)[2 * k] == parts[k][0]
    ensures Concat(parts)[2 * k + 1] == parts[k][1]
  {
    ConcatPairs(parts);
    if k > 0 {
      PairInConcat(parts[1..], k - 1);
    }
  }

  /** The two calls that look up a check. */
  ghost predicate LooksUp(p: Policy, check: string, sha: string, R: Replies, at: nat, first: Entry, second: Entry) {
    && check in p.checks
    && first == Entry(Reader, ReadRuns(p.checks[check].workflowFile, sha))
    && second == Entry(Reader, ReadJobs(SelectedRun(Body(R(at)), sha)))
  }

  lemma StepLooksUp(p: Policy, order: seq<string>, sha: string, R: Replies, k: nat)
    requires ChecksPassed(p, order, sha, R) && k < |order|
    ensures var steps := CheckSteps(p, order, sha, R);
            |steps[k]| == 2 && LooksUp(p, order[k], sha, R, 4 + 2 * k, steps[k][0], steps[k][1])
  {
    assert CheckPassedAt(p, order, sha, R, k);
  }

  lemma ChecksLookUp(p: Policy, order: seq<string>, sha: string, R: Replies, k: nat)
    requires ChecksPassed(p, order, sha, R) && k < |order|
    ensures var trace := Concat(CheckSteps(p, order, sha, R));
            2 * k + 1 < |trace| && LooksUp(p, order[k], sha, R, 4 + 2 * k, trace[2 * k], trace[2 * k + 1])
  {
    var steps := CheckSteps(p, order, sha, R);
    forall i | 0 <= i < |order| ensures |steps[i]| == 2 {
      StepLooksUp(p, order, sha, R, i);
    }
    StepLooksUp(p, order, sha, R, k);
    PairInConcat(steps, k);
  }

  lemma JoinedAt(a: seq<Entry>, b: seq<Entry>, c: seq<Entry>, n: nat)
    requires n + 1 < |b|
    ensures |a| + n + 1 < |a + b + c| && (a + b + c)[|a| + n] == b[n] && (a + b + c)[|a| + n + 1] == b[n + 1]
  {
  }

  /** A check is looked up by the calls number `4 + 2 * k` and the next, and passed by their answers. */
  ghost predicate PassedBy(p: Policy, check: string, sha: string, R: Replies, log: seq<Entry>, k: nat) {
    && 5 + 2 * k < |log| && CheckPassed(p, check, sha, Body(R(4 + 2 * k)), Body(R(5 + 2 * k)))
    && LooksUp(p, check, sha, R, 4 + 2 * k, log[4 + 2 * k], log[5 + 2 * k])
  }

  lemma PassedIn(p: Policy, order: seq<string>, sha: string, R: Replies, opening: seq<Entry>, more: seq<Entry>,
                 check: string)
    returns (k: nat)
    requires ChecksPassed(p, order, sha, R) && |opening| == 4 && check in order
    ensures PassedBy(p, check, sha, R, opening + Concat(CheckSteps(p, order, sha, R)) + more, k)
  {
    k :| 0 <= k < |order| && order[k] == check;
    assert CheckPassedAt(p, order, sha, R, k);
    ChecksLookUp(p, order, sha, R, k);
    JoinedAt(opening, Concat(CheckSteps(p, order, sha, R)), more, 2 * k);
  }

  lemma PassedLonger(p: Policy, check: string, sha: string, R: Replies, trace: seq<Entry>, log: seq<Entry>, k: nat)
    requires PassedBy(p, check, sha, R, trace, k) && trace <= log
    ensures PassedBy(p, check, sha, R, log, k)
  {
    assert log[4 + 2 * k] == trace[4 + 2 * k] && log[5 + 2 * k] == trace[5 + 2 * k];
  }

  lemma SelectedIsNewest(p: Policy, check: string, sha: string, runs: Json, jobs: Json) returns (id: int)
    requires CheckPassed(p, check, sha, runs, jobs)
    ensures RunForHead(runs, sha, id) && SelectedRun(runs, sha) == id
  {
    SomeRun(runs, sha);
    id := SelectWorkflowRun(runs, sha).value;
    WorkflowRunSelected(runs, sha, id);
  }

  /**
   If a run writes, every check the policy requires, and every check a capability of a changed name
   adds, was looked up by two of its calls, the runs of its workflow for the very head that lands and
   the jobs of the newest such run, and passed by their answers.
   */
  lemma LandingPassedEveryCheck(s: Setup, R: Replies, log: seq<Entry>, outcome: Result<Outcome>, i: nat, check: string)
    returns (k: nat, id: int)
    requires RunSpec(s, R, log, outcome) && i < |log| && IsLanding(log[i].call)
    requires check in NeededChecks(Capabilities(s, R), s.policy)
    ensures var sha := PinnedSha(log[i].call);
            && 5 + 2 * k < i && CheckPassed(s.policy, check, sha, Body(R(4 + 2 * k)), Body(R(5 + 2 * k)))
            && log[4 + 2 * k] == Entry(Reader, ReadRuns(s.policy.checks[check].workflowFile, sha))
            && RunForHead(Body(R(4 + 2 * k)), sha, id) && log[5 + 2 * k] == Entry(Reader, ReadJobs(id))
  {
    LandedAfterReads(s, R, log, outcome, i, check);
    k := PassedInReads(s, R, check);
    var sha := HeadSha(R);
    PassedLonger(s.policy, check, sha, R, ReadTrace(s, R), log[..i], k);
    id := SelectedIsNewest(s.policy, check, sha, Body(R(4 + 2 * k)), Body(R(5 + 2 * k)));
  }

  lemma PassedInReads(s: Setup, R: Replies, check: string) returns (k: nat)
    requires ChecksPassed(s.policy, CheckOrder(s, R), HeadSha(R), R) && check in CheckOrder(s, R)
    ensures PassedBy(s.policy, check, HeadSha(R), R, ReadTrace(s, R), k)
  {
    k := PassedIn(s.policy, CheckOrder(s, R), HeadSha(R), R, OpeningTrace(s),
                  [Entry(Reader, ReadPull(s.event.number))], check);
  }

  lemma LandedAfterReads(s: Setup, R: Replies, log: seq<Entry>, outcome: Result<Outcome>, i: nat, check: string)
    requires RunSpec(s, R, log, outcome) && i < |log| && IsLanding(log[i].call)
    ensures log[..i] == ReadTrace(s, R) && PinnedSha(log[i].call) == HeadSha(R)
    ensures ChecksPassed(s.policy, CheckOrder(s, R), HeadSha(R), R)
    ensures check in NeededChecks(Capabilities(s, R), s.policy) ==> check in CheckOrder(s, R)
  {
    WriteIsLast(s, R, log, outcome, i);
  }
}
