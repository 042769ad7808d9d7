/**
 The delegated merge command: a comment on a pull request asks for a merge, a run validates it
 against the policy through API reads whose answers may be anything, and lands it with one write.
 `Run` is the program. `Authorized` says, in terms of the raw answers, when a landing is allowed.
 */
module DelegatedMerge {
  import opened Text

  // ----- answers -----

  /** The object keys the program reads; any others are ignored. */
  datatype Key =
    KeyBase | KeyChangedFiles | KeyConclusion | KeyDetails | KeyDraft | KeyEnqueuePullRequest |
    KeyEvent | KeyExpectedHeadSha | KeyFilename | KeyFullName | KeyHead | KeyHeadSha | KeyId |
    KeyIsInMergeQueue | KeyJobs | KeyMergeQueue | KeyMergeQueueEntry | KeyMergeAction | KeyMergeable
    | KeyMergeableState | KeyMerged | KeyName | KeyNumber | KeyPosition | KeyPreviousFilename |
    KeyPullRequest | KeyRef | KeyRepo | KeyRepository | KeyRoleName | KeySha | KeyStack | KeyState |
    KeyStatus | KeyUuid | KeyWorkflowRuns

  datatype Json =
    | Null
    | Bool(b: bool)
    | Num(n: int)
    | Str(s: string)
    | Arr(items: seq<Json>)
    | Obj(fields: map<Key, Json>)

  /** `value.get(key)`; anything missing reads as null. */
  function Get(j: Json, key: Key): Json {
    if j.Obj? && key in j.fields then j.fields[key] else Null
  }

  /** Python's `==` between an answer and a number: true and false are 1 and 0. */
  predicate NumberEquals(j: Json, n: int) {
    j == Num(n) || (n == 1 && j == Bool(true)) || (n == 0 && j == Bool(false))
  }

  datatype Result<+T> = Ok(value: T) | Refused {
    predicate IsFailure() { Refused? }
    function PropagateFailure<U>(): Result<U>
      requires Refused?
    {
      Refused
    }
    function Extract(): T
      requires Ok?
    {
      value
    }
  }

  function Mapping(j: Json): Result<Json> { if j.Obj? then Ok(j) else Refused }

  function List(j: Json): Result<seq<Json>> { if j.Arr? then Ok(j.items) else Refused }

  function NonEmptyString(j: Json): Result<string> { if j.Str? && j.s != "" then Ok(j.s) else Refused }

  function PositiveInt(j: Json): Result<int> { if j.Num? && j.n > 0 then Ok(j.n) else Refused }

  function Require(condition: bool): Result<()> { if condition then Ok(()) else Refused }

  // ----- policy and event -----

  datatype Check = Check(workflowFile: string, jobName: string)

  datatype Capability = Capability(members: set<string>, prefixes: seq<string>, paths: set<string>,
                                   additionalChecks: set<string>)

  datatype Policy = Policy(
    command: string, repository: string, baseBranch: string, mergeMethod: string,
    requiredChecks: set<string>, checks: map<string, Check>, capabilities: map<string, Capability>)

  /** What loading the policy file guarantees: it names at least one check and defines all it names. */
  predicate ValidPolicy(p: Policy) {
    && p.requiredChecks != {}
    && p.requiredChecks <= p.checks.Keys
    && forall c :: c in p.capabilities ==> p.capabilities[c].additionalChecks <= p.checks.Keys
  }

  datatype Event = Event(repository: string, number: int, actor: string, actorType: string,
                         action: string, body: string, isPullRequest: bool)

  predicate EventAuthorized(e: Event, p: Policy) {
    e.action == "created" && e.isPullRequest && e.repository == p.repository && e.actorType == "User" && e.body == p.command
  }

  const MAX_CHANGED_FILES := 3000

  const HARD_DENIED_PATHS: set<string> := {
    ".github/delegated-merge.toml", ".github/workflows/delegated-merge.yml", "scripts/delegated_merge.py" }

  // ----- calls -----

  datatype Call =
    | ReadPermission(actor: string)
    | ReadQueue(number: int)
    | ReadPull(number: int)
    | ReadFiles(number: int)
    | ReadRuns(workflow: string, sha: string)
    | ReadJobs(run: int)
    | Merge(number: int, sha: string, mergeMethod: string)
    | Enqueue(id: string, sha: string)
    | MergeAsync(number: int, sha: string, mergeMethod: string)

  predicate IsLanding(c: Call) { c.Merge? || c.Enqueue? || c.MergeAsync? }

  /** The token a call is made with: the read client's or the landing client's. */
  datatype Client = Reader | Lander

  datatype Entry = Entry(client: Client, call: Call)

  predicate IsRead(e: Entry) { e.client == Reader && !IsLanding(e.call) }

  datatype Reply = Failed | Answer(body: Json)

  function Body(r: Reply): Json { if r.Failed? then Null else r.body }

  /** The outside world: an arbitrary reply to each call, and the calls made so far. */
  class Wire {
    const replies: nat -> Reply
    var log: seq<Entry>

    constructor (replies: nat -> Reply)
      ensures this.replies == replies && log == []
    {
      this.replies := replies;
      log := [];
    }

    method Send(client: Client, call: Call) returns (r: Result<Json>)
      modifies this`log
      ensures log == old(log) + [Entry(client, call)]
      ensures r == var reply := replies(|old(log)|); if reply.Failed? then Refused else Ok(reply.body)
    {
      var reply := replies(|log|);
      log := log + [Entry(client, call)];
      r := if reply.Failed? then Refused else Ok(reply.body);
    }
  }

  // ----- the pull request -----

  /** An open, clean pull request of this number against the policy's branch, with head `sha`. */
  predicate PullReady(pull: Json, p: Policy, number: int, sha: string) {
    && NumberEquals(Get(pull, KeyNumber), number)
    && Get(pull, KeyState) == Str("open") && Get(pull, KeyMerged) != Bool(true)
    && Get(pull, KeyDraft) == Bool(false)
    && Get(Get(Get(pull, KeyBase), KeyRepo), KeyFullName) == Str(p.repository)
    && Get(Get(pull, KeyBase), KeyRef) == Str(p.baseBranch)
    && Get(pull, KeyMergeable) == Bool(true) && Get(pull, KeyMergeableState) == Str("clean")
    && Get(Get(pull, KeyHead), KeySha) == Str(sha) && sha != ""
  }

  function AuthorizePullRequest(answer: Json, p: Policy, number: int): Result<string> {
    var pull :- Mapping(answer);
    var base :- Mapping(Get(pull, KeyBase));
    var baseRepo :- Mapping(Get(base, KeyRepo));
    var head :- Mapping(Get(pull, KeyHead));
    var _ :- Require(NumberEquals(Get(pull, KeyNumber), number));
    var _ :- Require(Get(pull, KeyState) == Str("open") && Get(pull, KeyMerged) != Bool(true));
    var _ :- Require(Get(pull, KeyDraft) == Bool(false));
    var _ :- Require(Get(baseRepo, KeyFullName) == Str(p.repository) && Get(base, KeyRef) == Str(p.baseBranch));
    var _ :- Require(Get(pull, KeyMergeable) == Bool(true) && Get(pull, KeyMergeableState) == Str("clean"));
    NonEmptyString(Get(head, KeySha))
  }

  lemma PullRequestAccepted(answer: Json, p: Policy, number: int, sha: string)
    ensures AuthorizePullRequest(answer, p, number) == Ok(sha) <==> PullReady(answer, p, number, sha)
  {
    var base, head := Get(answer, KeyBase), Get(answer, KeyHead);
    var repo := Get(base, KeyRepo);
    assert Get(repo, KeyFullName) == Str(p.repository) ==> repo.Obj? && base.Obj? && answer.Obj?;
    assert Get(head, KeySha) == Str(sha) ==> head.Obj?;
  }

  // ----- role and queue -----

  predicate RoleAccepted(role: Json) {
    role in {Str("triage"), Str("write"), Str("maintain"), Str("admin")}
  }

  function AuthorizeRepositoryAccess(answer: Json): Result<string> {
    var document :- Mapping(answer);
    if RoleAccepted(Get(document, KeyRoleName)) then Ok(Get(document, KeyRoleName).s) else Refused
  }

  datatype QueueState = QueueState(id: string, queueRequired: bool, inQueue: bool)

  predicate QueueReadable(data: Json) {
    var repository := Get(data, KeyRepository);
    var pull := Get(repository, KeyPullRequest);
    && repository.Obj? && KeyMergeQueue in repository.fields
    && Get(pull, KeyIsInMergeQueue).Bool?
    && Get(pull, KeyId).Str? && Get(pull, KeyId).s != ""
  }

  function ReadQueueState(answer: Json): (r: Result<QueueState>)
    ensures r.Ok? <==> QueueReadable(answer)
    ensures r.Ok? ==>
              var repository := Get(answer, KeyRepository);
              && r.value.inQueue == (Get(Get(repository, KeyPullRequest), KeyIsInMergeQueue) == Bool(true))
              && r.value.queueRequired == (Get(repository, KeyMergeQueue) != Null)
              && Str(r.value.id) == Get(Get(repository, KeyPullRequest), KeyId)
  {
    var data :- Mapping(answer);
    var repository :- Mapping(Get(data, KeyRepository));
    var pull :- Mapping(Get(repository, KeyPullRequest));
    var inQueue := Get(pull, KeyIsInMergeQueue);
    var _ :- Require(inQueue.Bool? && KeyMergeQueue in repository.fields);
    var id :- NonEmptyString(Get(pull, KeyId));
    Ok(QueueState(id, Get(repository, KeyMergeQueue) != Null, inQueue.b))
  }

  // ----- changed files -----

  predicate SafePath(path: string) {
    && path != "" && path[0] != '/' && Free(path, '\\')
    && forall i :: 0 <= i < |Split(path, '/')| ==> Split(path, '/')[i] !in {"", ".", ".."}
  }

  predicate Matches(path: string, c: Capability) {
    path in c.paths || exists i :: 0 <= i < |c.prefixes| && StartsWith(path, c.prefixes[i])
  }

  function HardDenied(p: Policy): set<string> {
    HARD_DENIED_PATHS + set k | k in p.checks :: ".github/workflows/" + p.checks[k].workflowFile
  }

  function Matching(name: string, p: Policy): set<string> {
    set c | c in p.capabilities && Matches(name, p.capabilities[c])
  }

  /** A name the delegation covers: not the broker's own, safe, and matched by some capability. */
  predicate NameCovered(name: string, p: Policy) {
    name !in HardDenied(p) && SafePath(name) && Matching(name, p) != {}
  }

  function FlattenPages(pages: seq<Json>): Result<seq<Json>> {
    if pages == [] then Ok([])
    else
      var first :- List(pages[0]);
      var rest :- FlattenPages(pages[1..]);
      Ok(first + rest)
  }

  /** The entry's new name or, for a rename, its previous one. */
  predicate Names(entry: Json, name: string) {
    Get(entry, KeyFilename) == Str(name) || Get(entry, KeyPreviousFilename) == Str(name)
  }

  predicate EntryReadable(entry: Json) {
    && Get(entry, KeyFilename).Str? && Get(entry, KeyFilename).s != ""
    && var previous := Get(entry, KeyPreviousFilename);
       previous == Null || (previous.Str? && previous.s != "")
  }

  function EntryNames(answer: Json): (r: Result<seq<string>>)
    ensures r.Ok? <==> EntryReadable(answer)
    ensures r.Ok? ==> forall n :: n in r.value <==> Names(answer, n)
  {
    var entry :- Mapping(answer);
    var name :- NonEmptyString(Get(entry, KeyFilename));
    var previous := Get(entry, KeyPreviousFilename);
    if previous == Null then Ok([name])
    else
      var former :- NonEmptyString(previous);
      Ok([name] + [former])
  }

  ghost predicate EntriesCovered(entries: seq<Json>, p: Policy) {
    && (forall e :: e in entries ==> EntryReadable(e))
    && (forall e, n :: e in entries && Names(e, n) ==> NameCovered(n, p))
  }

  /** Every capability that matches a name of some entry. */
  ghost function NeededCapabilities(entries: seq<Json>, p: Policy): set<string> {
    set c | c in p.capabilities && exists e, n :: e in entries && Names(e, n) && c in Matching(n, p)
  }

  /** The policy's own checks and those the given capabilities add. */
  function NeededChecks(capabilities: set<string>, p: Policy): set<string> {
    p.requiredChecks + set c, k | c in capabilities && c in p.capabilities && k in p.capabilities[c].additionalChecks :: k
  }

  ghost predicate FilesCovered(files: Json, changedFiles: Json, p: Policy) {
    && p.capabilities != map[]
    && changedFiles.Num? && 0 < changedFiles.n <= MAX_CHANGED_FILES
    && files.Arr? && FlattenPages(files.items).Ok?
    && |FlattenPages(files.items).value| == changedFiles.n
    && EntriesCovered(FlattenPages(files.items).value, p)
  }

  lemma MoreEntries(entries: seq<Json>, e: Json, p: Policy)
    ensures NeededCapabilities(entries + [e], p)
         == NeededCapabilities(entries, p) + NeededCapabilities([e], p)
    ensures EntriesCovered(entries + [e], p) <==> EntriesCovered(entries, p) && EntriesCovered([e], p)
  {
    assert forall x :: x in entries + [e] <==> x in entries || x in [e];
  }

  lemma OneEntry(e: Json, names: seq<string>, p: Policy)
    requires forall n :: n in names <==> Names(e, n)
    ensures NeededCapabilities([e], p) == NeededBy(names, p)
    ensures EntryReadable(e) ==> (EntriesCovered([e], p) <==> forall n :: n in names ==> NameCovered(n, p))
  {
    assert forall x :: x in [e] <==> x == e;
    forall c | c in NeededCapabilities([e], p) ensures c in NeededBy(names, p) {
      var x, n :| x in [e] && Names(x, n) && c in Matching(n, p);
      assert n in names;
    }
    forall c | c in NeededBy(names, p) ensures c in NeededCapabilities([e], p) {
      var n :| n in names && c in Matching(n, p);
      assert e in [e] && Names(e, n);
    }
  }

  ghost function NeededBy(names: seq<string>, p: Policy): set<string> {
    set c | c in p.capabilities && exists n :: n in names && c in Matching(n, p)
  }

  /** The names of one entry: all covered, and the capabilities they need. */
  method AuthorizeNames(names: seq<string>, p: Policy) returns (ok: bool, needed: set<string>)
    ensures ok <==> forall n :: n in names ==> NameCovered(n, p)
    ensures ok ==> needed == NeededBy(names, p)
  {
    needed := {};
    for i := 0 to |names|
      invariant forall n :: n in names[..i] ==> NameCovered(n, p)
      invariant needed == NeededBy(names[..i], p)
    {
      assert names[..i + 1] == names[..i] + [names[i]];
      assert names[i] in names;
      if names[i] in HardDenied(p) {
        return false, {};
      }
      if !SafePath(names[i]) {
        return false, {};
      }
      var matching := Matching(names[i], p);
      if matching == {} {
        return false, {};
      }
      assert NeededBy(names[..i + 1], p) == NeededBy(names[..i], p) + matching;
      needed := needed + matching;
    }
    assert names[..|names|] == names;
    ok := true;
  }

  lemma ChecksGrow(a: set<string>, b: set<string>, p: Policy)
    ensures NeededChecks(a + b, p) == NeededChecks(a, p) + NeededChecks(b, p)
    ensures NeededChecks({}, p) == p.requiredChecks
  {
  }

  method AuthorizeFiles(files: Json, changedFiles: Json, p: Policy)
    returns (r: Result<(set<string>, set<string>)>)
    ensures r.Ok? <==> FilesCovered(files, changedFiles, p)
    ensures r.Ok? ==>
              var entries := FlattenPages(files.items).value;
              && r.value.0 == NeededCapabilities(entries, p)
              && r.value.1 == NeededChecks(r.value.0, p)
  {
    if p.capabilities == map[] {
      return Refused;
    }
    var count :- PositiveInt(changedFiles);
    if count > MAX_CHANGED_FILES {
      return Refused;
    }
    var pages :- List(files);
    var entries :- FlattenPages(pages);
    if |entries| != count {
      return Refused;
    }
    var capabilities: set<string>, checks := {}, p.requiredChecks;
    ChecksGrow({}, {}, p);
    var i := 0;
    while i < |entries|
      invariant 0 <= i <= |entries|
      invariant EntriesCovered(entries[..i], p)
      invariant capabilities == NeededCapabilities(entries[..i], p)
      invariant checks == NeededChecks(capabilities, p)
    {
      var e := entries[i];
      assert e in entries;
      assert entries[..i + 1] == entries[..i] + [e];
      MoreEntries(entries[..i], e, p);
      var names :- EntryNames(e);
      OneEntry(e, names, p);
      var ok, needed := AuthorizeNames(names, p);
      if !ok {
        Uncovered(entries, i, p);
        return Refused;
      }
      ChecksGrow(capabilities, needed, p);
      checks := checks + NeededChecks(needed, p);
      capabilities := capabilities + needed;
      i := i + 1;
    }
    assert entries[..|entries|] == entries;
    r := Ok((capabilities, checks));
  }

  lemma Uncovered(entries: seq<Json>, i: nat, p: Policy)
    requires i < |entries| && !EntriesCovered([entries[i]], p)
    ensures !EntriesCovered(entries, p)
  {
    assert entries[i] in entries;
    assert forall x :: x in [entries[i]] ==> x in entries;
  }

  /** The actor belongs to every needed capability, or is an admin. */
  predicate MembershipHeld(role: string, login: string, capabilities: set<string>, p: Policy) {
    role == "admin" || forall c :: c in capabilities && c in p.capabilities ==> login in p.capabilities[c].members
  }

  // ----- checks -----

  predicate IsCandidate(run: Json, sha: string) {
    run.Obj? && Get(run, KeyHeadSha) == Str(sha) && Get(run, KeyEvent) == Str("pull_request")
  }

  function CandidateRuns(runs: seq<Json>, sha: string): (c: seq<Json>)
    ensures forall r :: r in c <==> r in runs && IsCandidate(r, sha)
  {
    if runs == [] then []
    else (if IsCandidate(runs[0], sha) then [runs[0]] else []) + CandidateRuns(runs[1..], sha)
  }

  /** The ids are positive integers, and `id` is the greatest of them. */
  ghost predicate Newest(candidates: seq<Json>, id: int) {
    && (exists c :: c in candidates && Get(c, KeyId) == Num(id))
    && (forall c :: c in candidates ==> Get(c, KeyId).Num? && 0 < Get(c, KeyId).n <= id)
  }

  /** `max(candidates, key=id)`, refusing an id that is not a positive integer. */
  function LatestRun(candidates: seq<Json>): Result<int>
    requires candidates != []
  {
    var id :- PositiveInt(Get(candidates[0], KeyId));
    if |candidates| == 1 then Ok(id)
    else
      var rest :- LatestRun(candidates[1..]);
      Ok(if id >= rest then id else rest)
  }

  lemma {:induction false} LatestIsNewest(candidates: seq<Json>, id: int)
    requires candidates != []
    ensures LatestRun(candidates) == Ok(id) <==> Newest(candidates, id)
  {
    var first, rest := candidates[0], candidates[1..];
    assert candidates == [first] + rest;
    if |candidates| == 1 {
      assert first in candidates;
    } else if Get(first, KeyId).Num? {
      assert first in candidates;
      assert forall c :: c in rest ==> c in candidates;
      LatestIsNewest(rest, id);
      LatestIsNewest(rest, if LatestRun(rest).Ok? then LatestRun(rest).value else 0);
      if Newest(candidates, id) && !Newest(rest, id) && LatestRun(rest).Refused? {
        NewestExists(rest);
        var n :| Newest(rest, n);
        LatestIsNewest(rest, n);
      }
    }
  }

  lemma {:induction false} NewestExists(candidates: seq<Json>)
    requires candidates != []
    requires forall c :: c in candidates ==> Get(c, KeyId).Num? && 0 < Get(c, KeyId).n
    ensures exists id :: Newest(candidates, id)
  {
    var first, rest := candidates[0], candidates[1..];
    assert candidates == [first] + rest;
    assert first in candidates;
    var id := Get(first, KeyId).n;
    if rest == [] {
      assert Newest(candidates, id);
    } else {
      assert forall c :: c in rest ==> c in candidates;
      NewestExists(rest);
      var n :| Newest(rest, n);
      assert Newest(candidates, if id >= n then id else n);
    }
  }

  function SelectWorkflowRun(answer: Json, sha: string): Result<int> {
    var document :- Mapping(answer);
    var runs :- List(Get(document, KeyWorkflowRuns));
    if CandidateRuns(runs, sha) == [] then Refused else LatestRun(CandidateRuns(runs, sha))
  }

  /** `id` is the newest of the pull request runs the answer lists for exactly this head. */
  ghost predicate RunForHead(answer: Json, sha: string, id: int) {
    var runs := Get(answer, KeyWorkflowRuns);
    && runs.Arr?
    && (exists r :: r in runs.items && IsCandidate(r, sha) && Get(r, KeyId) == Num(id))
    && (forall r :: r in runs.items && IsCandidate(r, sha) ==> Get(r, KeyId).Num? && 0 < Get(r, KeyId).n <= id)
  }

  lemma NewestCandidate(runs: seq<Json>, sha: string, id: int)
    ensures Newest(CandidateRuns(runs, sha), id) <==>
            && (exists r :: r in runs && IsCandidate(r, sha) && Get(r, KeyId) == Num(id))
            && (forall r :: r in runs && IsCandidate(r, sha) ==> Get(r, KeyId).Num? && 0 < Get(r, KeyId).n <= id)
  {
  }

  lemma WorkflowRunSelected(answer: Json, sha: string, id: int)
    ensures SelectWorkflowRun(answer, sha) == Ok(id) <==> RunForHead(answer, sha, id)
  {
    var runs := Get(answer, KeyWorkflowRuns);
    if runs.Arr? {
      NewestCandidate(runs.items, sha, id);
      if CandidateRuns(runs.items, sha) != [] {
        LatestIsNewest(CandidateRuns(runs.items, sha), id);
      }
    }
  }

  function FlattenJobs(pages: seq<Json>): Result<seq<Json>> {
    if pages == [] then Ok([])
    else
      var page :- Mapping(pages[0]);
      var jobs :- List(Get(page, KeyJobs));
      var _ :- Require(forall i :: 0 <= i < |jobs| ==> jobs[i].Obj?);
      var rest :- FlattenJobs(pages[1..]);
      Ok(jobs + rest)
  }

  function JobsNamed(jobs: seq<Json>, name: string): (m: seq<Json>)
    ensures forall j :: j in m ==> j in jobs && Get(j, KeyName) == Str(name)
  {
    if jobs == [] then []
    else (if Get(jobs[0], KeyName) == Str(name) then [jobs[0]] else []) + JobsNamed(jobs[1..], name)
  }

  predicate AuthorizeCheckJob(answer: Json, name: string) {
    && answer.Arr? && FlattenJobs(answer.items).Ok?
    && var matches := JobsNamed(FlattenJobs(answer.items).value, name);
       |matches| == 1 && Get(matches[0], KeyStatus) == Str("completed") && Get(matches[0],
                                                                               KeyConclusion) == Str("success")
  }

  /** The answer lists exactly one job of this name, and it succeeded. */
  ghost predicate OnlyJobSucceeded(answer: Json, name: string) {
    && answer.Arr? && FlattenJobs(answer.items).Ok?
    && var jobs := FlattenJobs(answer.items).value;
       exists k :: 0 <= k < |jobs|
         && (forall i :: 0 <= i < |jobs| ==> (Get(jobs[i], KeyName) == Str(name) <==> i == k))
         && Get(jobs[k], KeyStatus) == Str("completed") && Get(jobs[k], KeyConclusion) == Str("success")
  }

  lemma {:induction false} NoneNamed(jobs: seq<Json>, name: string)
    ensures JobsNamed(jobs, name) == [] <==> forall i :: 0 <= i < |jobs| ==> Get(jobs[i], KeyName) != Str(name)
  {
    if jobs != [] {
      NoneNamed(jobs[1..], name);
      if forall i :: 0 <= i < |jobs[1..]| ==> Get(jobs[1..][i], KeyName) != Str(name) {
        forall i | 1 <= i < |jobs| ensures Get(jobs[i], KeyName) != Str(name) {
          assert jobs[i] == jobs[1..][i - 1];
        }
      }
    }
  }

  /** `k` is the one index whose job has this name. */
  ghost predicate OnlyAt(jobs: seq<Json>, name: string, k: nat) {
    k < |jobs| && forall i :: 0 <= i < |jobs| ==> (Get(jobs[i], KeyName) == Str(name) <==> i == k)
  }

  lemma {:induction false} OneNamed(jobs: seq<Json>, name: string) returns (k: nat)
    requires |JobsNamed(jobs, name)| == 1
    ensures OnlyAt(jobs, name, k) && jobs[k] == JobsNamed(jobs, name)[0]
  {
    var rest := jobs[1..];
    NoneNamed(rest, name);
    if Get(jobs[0], KeyName) == Str(name) {
      k := 0;
      assert JobsNamed(rest, name) == [];
      forall i | 1 <= i < |jobs| ensures Get(jobs[i], KeyName) != Str(name) {
        assert jobs[i] == rest[i - 1];
      }
    } else {
      var k' := OneNamed(rest, name);
      k := k' + 1;
      forall i | 0 <= i < |jobs| ensures Get(jobs[i], KeyName) == Str(name) <==> i == k {
        if i > 0 {
          assert jobs[i] == rest[i - 1];
        }
      }
    }
  }

  lemma {:induction false} NamedOnce(jobs: seq<Json>, name: string, k: nat)
    requires OnlyAt(jobs, name, k)
    ensures JobsNamed(jobs, name) == [jobs[k]]
  {
    var rest := jobs[1..];
    if k == 0 {
      forall i | 0 <= i < |rest| ensures Get(rest[i], KeyName) != Str(name) {
        assert rest[i] == jobs[i + 1];
      }
      NoneNamed(rest, name);
    } else {
      forall i | 0 <= i < |rest| ensures Get(rest[i], KeyName) == Str(name) <==> i == k - 1 {
        assert rest[i] == jobs[i + 1];
      }
      NamedOnce(rest, name, k - 1);
    }
  }

  lemma CheckJobAuthorized(answer: Json, name: string)
    ensures AuthorizeCheckJob(answer, name) <==> OnlyJobSucceeded(answer, name)
  {
    if answer.Arr? && FlattenJobs(answer.items).Ok? {
      var jobs := FlattenJobs(answer.items).value;
      if AuthorizeCheckJob(answer, name) {
        var k := OneNamed(jobs, name);
        assert OnlyAt(jobs, name, k);
      }
      if OnlyJobSucceeded(answer, name) {
        var k :| 0 <= k < |jobs|
          && (forall i :: 0 <= i < |jobs| ==> (Get(jobs[i], KeyName) == Str(name) <==> i == k))
          && Get(jobs[k], KeyStatus) == Str("completed") && Get(jobs[k], KeyConclusion) == Str("success");
        assert OnlyAt(jobs, name, k);
        NamedOnce(jobs, name, k);
      }
    }
  }
}
