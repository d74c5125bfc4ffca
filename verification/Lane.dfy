/** The repo execution lane: classify a patch plan, then branch, apply, validate and open a pull
    request through a writer that may fail at any call. */
module Lane {
  import opened Common
  import opened Policy

  datatype FilePatch = FilePatch(path: string, content: string)

  datatype PatchPlan = PatchPlan(
    changeClass: string,
    title: string,
    patches: seq<FilePatch>,
    baseBranch: string,
    validationClass: Option<string>)

  type Tree = map<string, string>

  datatype PullRequest = PullRequest(number: nat, head: string, base: string, title: string, draft: bool)

  /** The repository behind the writer; `calls` counts the writer calls made so far. */
  datatype Repo = Repo(branches: map<string, Tree>, prs: seq<PullRequest>, calls: nat)

  datatype Validation = Validation(command: string, success: bool)

  datatype Status = BlockedByPolicy | RequiresHumanReview | ValidationFailed | PrOpened

  datatype LaneResult =
    | Finished(
        status: Status, mode: Mode, reason: string, branch: string, pr: Option<nat>, validations: seq<Validation>)
    | Raised

  const VALIDATION_REASON := "one or more validation commands failed"

  /** The reference for applying patches in order: the last write to a path wins. */
  function Overlay(tree: Tree, patches: seq<FilePatch>): Tree
    decreases |patches|
  {
    if patches == [] then tree
    else
      var last := patches[|patches| - 1];
      Overlay(tree, patches[..|patches| - 1])[last.path := last.content]
  }

  /** The service behind the writer: which calls it refuses, and the number it gives a pull request. */
  datatype Remote = Remote(failing: set<nat>, number: nat -> nat)

  function Called(r: Repo): Repo {
    r.(calls := r.calls + 1)
  }

  predicate CanBranch(r: Repo, failing: set<nat>, branch: string, base: string) {
    r.calls !in failing && base in r.branches && branch !in r.branches
  }

  function Branched(r: Repo, branch: string, base: string): Repo
    requires base in r.branches
  {
    Called(r).(branches := r.branches[branch := r.branches[base]])
  }

  /** A writer of one repository. The calls whose index is in `remote.failing` raise and change nothing; a
      branch cannot be created twice or from a missing base, nor a file written to a missing branch. */
  class RepoWriter {
    var repo: Repo
    const remote: Remote

    constructor (repo: Repo, remote: Remote)
      ensures this.repo == repo && this.remote == remote
    {
      this.repo, this.remote := repo, remote;
    }

    method CreateBranch(branch: string, fromBranch: string) returns (ok: bool)
      modifies this
      ensures ok == CanBranch(old(repo), remote.failing, branch, fromBranch)
      ensures repo == if ok then Branched(old(repo), branch, fromBranch) else Called(old(repo))
    {
      ok := CanBranch(repo, remote.failing, branch, fromBranch);
      if ok {
        repo := repo.(branches := repo.branches[branch := repo.branches[fromBranch]]);
      }
      repo := repo.(calls := repo.calls + 1);
    }

    method UpsertFile(branch: string, patch: FilePatch) returns (ok: bool)
      modifies this
      ensures ok == (old(repo).calls !in remote.failing && branch in old(repo).branches)
      ensures repo == if ok then
                        Called(old(repo)).(branches := old(repo).branches[
                          branch := old(repo).branches[branch][patch.path := patch.content]])
                      else Called(old(repo))
    {
      ok := repo.calls !in remote.failing && branch in repo.branches;
      if ok {
        repo := repo.(branches := repo.branches[branch := repo.branches[branch][patch.path := patch.content]]);
      }
      repo := repo.(calls := repo.calls + 1);
    }

    method CreatePr(head: string, base: string, title: string) returns (number: Option<nat>)
      modifies this
      ensures number == if old(repo).calls in remote.failing then None else Some(remote.number(old(repo).calls))
      ensures repo == if number.None? then Called(old(repo))
                      else Called(old(repo)).(prs := old(repo).prs
                             + [PullRequest(number.value, head, base, title, true)])
    {
      number := None;
      if repo.calls !in remote.failing {
        number := Some(remote.number(repo.calls));
        repo := repo.(prs := repo.prs + [PullRequest(number.value, head, base, title, true)]);
      }
      repo := repo.(calls := repo.calls + 1);
    }
  }

  /** One request to the lane; `passes` is the outcome each validation command would have. */
  datatype Job = Job(
    plan: PatchPlan,
    allowPrOnlyApply: bool,
    validateExecute: bool,
    stamp: string,
    passes: set<string>)

  function Dashed(s: string): string {
    if s == "" then "" else [if s[0] == '_' then '-' else s[0]] + Dashed(s[1..])
  }

  /** `ops/<class with dashes>-<timestamp>`. */
  function BranchName(changeClass: string, stamp: string): string {
    "ops/" + Dashed(changeClass) + "-" + stamp
  }

  function PathsOf(patches: seq<FilePatch>): seq<string> {
    seq(|patches|, i requires 0 <= i < |patches| => patches[i].path)
  }

  /** The policy lets the lane write. */
  predicate Permitted(policy: AutonomyPolicy, job: Job) {
    var mode := policy.Classify(job.plan.changeClass, PathsOf(job.plan.patches)).mode;
    mode == AutoPatch || (mode == PrOnly && job.allowPrOnlyApply)
  }

  function ValidationClass(plan: PatchPlan): string {
    if plan.validationClass.Some? && plan.validationClass.value != "" then plan.validationClass.value
    else plan.changeClass
  }

  function CommandsFor(commands: map<string, seq<string>>, changeClass: string): seq<string> {
    if changeClass in commands then commands[changeClass] else []
  }

  function Validations(commands: map<string, seq<string>>, job: Job): seq<Validation> {
    var cs := CommandsFor(commands, ValidationClass(job.plan));
    seq(|cs|, i requires 0 <= i < |cs| => Validation(cs[i], !job.validateExecute || cs[i] in job.passes))
  }

  predicate AllPass(vs: seq<Validation>) {
    forall i :: 0 <= i < |vs| ==> vs[i].success
  }

  /** How many of `n` consecutive writer calls starting at `first` succeed before one fails. */
  function Landed(failing: set<nat>, first: nat, n: nat): (k: nat)
    ensures k <= n && forall i :: first <= i < first + k ==> i !in failing
    ensures k < n ==> first + k in failing
    decreases n
  {
    if n == 0 || first in failing then 0 else 1 + Landed(failing, first + 1, n - 1)
  }

  lemma {:induction false} LandedIs(failing: set<nat>, first: nat, n: nat, k: nat)
    requires k <= n && forall i :: first <= i < first + k ==> i !in failing
    requires k < n ==> first + k in failing
    ensures Landed(failing, first, n) == k
    decreases n
  {
    if k > 0 {
      LandedIs(failing, first + 1, n - 1, k - 1);
    }
  }

  /** What one request leaves behind. */
  function Outcome(policy: AutonomyPolicy, commands: map<string, seq<string>>, remote: Remote, r: Repo, job: Job)
    : (Repo, LaneResult)
  {
    var plan := job.plan;
    var Decision(mode, reason) := policy.Classify(plan.changeClass, PathsOf(plan.patches));
    var branch := BranchName(plan.changeClass, job.stamp);
    if !Permitted(policy, job) then
      (r, Finished(if mode == Blocked then BlockedByPolicy else RequiresHumanReview, mode, reason, "", None, []))
    else if !CanBranch(r, remote.failing, branch, plan.baseBranch) then (Called(r), Raised)
    else
      var n := |plan.patches|;
      var k := Landed(remote.failing, r.calls + 1, n);
      var tree := Overlay(r.branches[plan.baseBranch], plan.patches[..k]);
      var r' := Repo(r.branches[branch := tree], r.prs, r.calls + 1 + if k < n then k + 1 else n);
      var vs := Validations(commands, job);
      if k < n then (r', Raised)
      else if !AllPass(vs) then (r', Finished(ValidationFailed, mode, VALIDATION_REASON, branch, None, vs))
      else if r'.calls in remote.failing then (Called(r'), Raised)
      else
        var number := remote.number(r'.calls);
        (Called(r').(prs := r.prs + [PullRequest(number, branch, plan.baseBranch, plan.title, true)]),
         Finished(PrOpened, mode, reason, branch, Some(number), vs))
  }

  class RepoExecutionLane {
    const policy: AutonomyPolicy
    const commands: map<string, seq<string>>
    const writer: RepoWriter

    constructor (policy: AutonomyPolicy, commands: map<string, seq<string>>, writer: RepoWriter)
      ensures this.policy == policy && this.commands == commands && this.writer == writer
    {
      this.policy, this.commands, this.writer := policy, commands, writer;
    }

    /** The validator: every command of the class, reported as passed when not actually executed. */
    method Validate(job: Job) returns (vs: seq<Validation>)
      ensures vs == Validations(commands, job)
    {
      var cs := CommandsFor(commands, ValidationClass(job.plan));
      vs := [];
      for i := 0 to |cs|
        invariant vs == Validations(commands, job)[..i]
      {
        vs := vs + [Validation(cs[i], !job.validateExecute || cs[i] in job.passes)];
      }
    }

    /** The patch loop of `execute`: stops at the first writer call that fails. */
    method ApplyPatches(branch: string, patches: seq<FilePatch>) returns (ok: bool)
      requires branch in writer.repo.branches
      modifies writer
      ensures
        var k := Landed(writer.remote.failing, old(writer.repo).calls, |patches|);
        && ok == (k == |patches|)
        && writer.repo == Repo(
             old(writer.repo).branches[branch := Overlay(old(writer.repo).branches[branch], patches[..k])],
             old(writer.repo).prs, old(writer.repo).calls + if ok then k else k + 1)
    {
      ghost var r := writer.repo;
      ok := true;
      assert r.branches[branch := r.branches[branch]] == r.branches;
      for i := 0 to |patches|
        invariant writer.repo
          == Repo(r.branches[branch := Overlay(r.branches[branch], patches[..i])], r.prs, r.calls + i)
        invariant forall j :: r.calls <= j < r.calls + i ==> j !in writer.remote.failing
      {
        assert patches[..i + 1][..i] == patches[..i];
        ok := writer.UpsertFile(branch, patches[i]);
        if !ok {
          LandedIs(writer.remote.failing, r.calls, |patches|, i);
          return;
        }
      }
      LandedIs(writer.remote.failing, r.calls, |patches|, |patches|);
      ok := true;
    }

    method Execute(job: Job) returns (result: LaneResult)
      modifies writer
      ensures (writer.repo, result) == Outcome(policy, commands, writer.remote, old(writer.repo), job)
    {
      var plan := job.plan;
      var decision := policy.Classify(plan.changeClass, PathsOf(plan.patches));
      var mode, reason := decision.mode, decision.reason;
      if mode == Blocked {
        return Finished(BlockedByPolicy, mode, reason, "", None, []);
      }
      if mode == PrOnly && !job.allowPrOnlyApply {
        return Finished(RequiresHumanReview, mode, reason, "", None, []);
      }
      var branch := BranchName(plan.changeClass, job.stamp);
      var ok := writer.CreateBranch(branch, plan.baseBranch);
      if !ok {
        return Raised;
      }
      ghost var r, base := old(writer.repo), old(writer.repo).branches[plan.baseBranch];
      ok := ApplyPatches(branch, plan.patches);
      assert r.branches[branch := base][branch := writer.repo.branches[branch]]
          == r.branches[branch := writer.repo.branches[branch]];
      if !ok {
        return Raised;
      }
      var validations := Validate(job);
      if exists i :: 0 <= i < |validations| && !validations[i].success {
        return Finished(ValidationFailed, mode, VALIDATION_REASON, branch, None, validations);
      }
      var pr := writer.CreatePr(branch, plan.baseBranch, plan.title);
      if pr.None? {
        return Raised;
      }
      return Finished(PrOpened, mode, reason, branch, pr, validations);
    }
  }

  // ----- What the lane guarantees -----

  /** After applying patches a path holds the content of the last patch written to it, or else what
      the base held; no other path exists. */
  lemma {:induction false} OverlayLastWins(tree: Tree, patches: seq<FilePatch>, path: string)
    ensures path in Overlay(tree, patches)
       <==> path in tree || exists i :: 0 <= i < |patches| && patches[i].path == path
    ensures forall i :: 0 <= i < |patches| && patches[i].path == path
                        && (forall j :: i < j < |patches| ==> patches[j].path != path)
              ==> path in Overlay(tree, patches) && Overlay(tree, patches)[path] == patches[i].content
    ensures path in tree && (forall i :: 0 <= i < |patches| ==> patches[i].path != path) ==>
              Overlay(tree, patches)[path] == tree[path]
    decreases |patches|
  {
    if patches != [] {
      var n := |patches| - 1;
      OverlayLastWins(tree, patches[..n], path);
      assert forall i :: 0 <= i < n ==> patches[..n][i] == patches[i];
    }
  }

  /** The policy lets the lane write: neither the class nor any path is blocked, and the caller approved a
      pr_only change or the change may be patched automatically. */
  ghost predicate MayWrite(policy: AutonomyPolicy, job: Job) {
    var c, patches := job.plan.changeClass, job.plan.patches;
    && c !in policy.blockedClasses
    && (forall i :: 0 <= i < |patches| ==> !Under(patches[i].path, policy.blockedPrefixes))
    && (job.allowPrOnlyApply
        || (c in policy.autoPatchClasses && c !in policy.prOnlyClasses && patches != []
            && forall i :: 0 <= i < |patches| ==> Under(patches[i].path, policy.lowRiskPrefixes)))
  }

  lemma PathsAre(policy: AutonomyPolicy, patches: seq<FilePatch>)
    ensures AnyBlocked(policy, PathsOf(patches))
       <==> exists i :: 0 <= i < |patches| && Under(patches[i].path, policy.blockedPrefixes)
    ensures AllLowRisk(policy, PathsOf(patches))
       <==> forall i :: 0 <= i < |patches| ==> Under(patches[i].path, policy.lowRiskPrefixes)
    ensures PathsOf(patches) == [] <==> patches == []
  {
    hide Under;
    assert forall i :: 0 <= i < |patches| ==> PathsOf(patches)[i] == patches[i].path;
  }

  lemma PermittedExactly(policy: AutonomyPolicy, job: Job)
    ensures Permitted(policy, job) <==> MayWrite(policy, job)
  {
    hide Under, AnyBlocked, AllLowRisk, AutonomyPolicy.Classify;
    ClassifyExactly(policy, job.plan.changeClass, PathsOf(job.plan.patches));
    PathsAre(policy, job.plan.patches);
  }

  /** The class whose commands validate a plan: the one it names, else the class of the change. */
  predicate ValidatedAs(plan: PatchPlan, cls: string) {
    var named := plan.validationClass != None && plan.validationClass != Some("");
    if named then plan.validationClass == Some(cls) else cls == plan.changeClass
  }

  /** Every command of the class passes, or nothing is executed. */
  ghost predicate Sound(commands: map<string, seq<string>>, job: Job) {
    job.validateExecute ==>
      forall cls, i :: ValidatedAs(job.plan, cls) && cls in commands && 0 <= i < |commands[cls]| ==>
        commands[cls][i] in job.passes
  }

  /** A validation result for each command of the class, in order; it fails exactly when the command is
      executed and does not pass. */
  lemma ValidationsExactly(commands: map<string, seq<string>>, job: Job, cls: string)
    requires ValidatedAs(job.plan, cls)
    ensures
      var vs := Validations(commands, job);
      && |vs| == (if cls in commands then |commands[cls]| else 0)
      && forall i :: 0 <= i < |vs| ==>
           vs[i].command == commands[cls][i]
           && (!vs[i].success <==> job.validateExecute && commands[cls][i] !in job.passes)
  {
  }

  lemma SoundExactly(commands: map<string, seq<string>>, job: Job)
    ensures AllPass(Validations(commands, job)) <==> Sound(commands, job)
  {
    hide Validations;
    var named := job.plan.validationClass.GetOr("");
    var cls := if named == "" then job.plan.changeClass else named;
    ValidationsExactly(commands, job, cls);
  }

  /** The branch is named after the class, with dashes for underscores, and the time stamp. */
  lemma {:induction false} DashedExactly(s: string)
    ensures |Dashed(s)| == |s|
    ensures forall i :: 0 <= i < |s| ==> Dashed(s)[i] == if s[i] == '_' then '-' else s[i]
  {
    if s != "" {
      DashedExactly(s[1..]);
    }
  }

  lemma BranchNameExactly(changeClass: string, stamp: string) returns (middle: string)
    ensures BranchName(changeClass, stamp) == "ops/" + middle + "-" + stamp && |middle| == |changeClass|
    ensures forall i :: 0 <= i < |middle| ==> middle[i] == if changeClass[i] == '_' then '-' else changeClass[i]
  {
    DashedExactly(changeClass);
    middle := Dashed(changeClass);
  }

  /** The writer is touched exactly when the policy permits the request. */
  lemma WritesOnlyWhenPermitted(
    policy: AutonomyPolicy, commands: map<string, seq<string>>, remote: Remote, r: Repo, job: Job)
    ensures Outcome(policy, commands, remote, r, job).0 != r <==> MayWrite(policy, job)
  {
    hide MayWrite, Permitted;
    PermittedExactly(policy, job);
    var after := Outcome(policy, commands, remote, r, job).0;
    assert Permitted(policy, job) ==> after.calls > r.calls;
  }

  /** The branch is created: the policy permits, its base exists, it does not, and the call goes through. */
  ghost predicate Branches(policy: AutonomyPolicy, remote: Remote, r: Repo, job: Job) {
    && MayWrite(policy, job) && job.plan.baseBranch in r.branches
    && BranchName(job.plan.changeClass, job.stamp) !in r.branches && r.calls !in remote.failing
  }

  /** Patches land until one of their calls fails: `k` of them do. */
  predicate Lands(remote: Remote, r: Repo, job: Job, k: nat) {
    && k <= |job.plan.patches| && (forall i :: r.calls < i <= r.calls + k ==> i !in remote.failing)
    && (k < |job.plan.patches| ==> r.calls + 1 + k in remote.failing)
  }

  /** Every existing branch survives untouched; the request's own branch is new exactly when it could be
      created, and it holds the base overlaid with the patches before the first failing call. */
  lemma BranchHoldsPrefix(
    policy: AutonomyPolicy, commands: map<string, seq<string>>, remote: Remote, r: Repo, job: Job)
    ensures
      var (r', result) := Outcome(policy, commands, remote, r, job);
      var branch := BranchName(job.plan.changeClass, job.stamp);
      && (forall b :: b in r.branches ==> b in r'.branches && r'.branches[b] == r.branches[b])
      && (forall b :: b in r'.branches && b !in r.branches <==> b == branch && Branches(policy, remote, r, job))
      && (Branches(policy, remote, r, job) ==>
            exists k: nat :: Lands(remote, r, job, k)
              && r'.branches[branch] == Overlay(r.branches[job.plan.baseBranch], job.plan.patches[..k])
              && (k < |job.plan.patches| ==> result == Raised))
  {
    hide MayWrite, Permitted, Validations, AllPass, Overlay, BranchName, AutonomyPolicy.Classify;
    PermittedExactly(policy, job);
    assert Lands(remote, r, job, Landed(remote.failing, r.calls + 1, |job.plan.patches|));
  }

  lemma LandedAll(failing: set<nat>, first: nat, n: nat)
    ensures Landed(failing, first, n) == n <==> forall i :: first <= i < first + n ==> i !in failing
  {
    var k := Landed(failing, first, n);
    assert k < n ==> first + k in failing;
  }

  /** The conditions of an opened pull request. */
  ghost predicate Opens(
    policy: AutonomyPolicy, commands: map<string, seq<string>>, remote: Remote, r: Repo, job: Job)
  {
    && Branches(policy, remote, r, job) && Lands(remote, r, job, |job.plan.patches|)
    && Sound(commands, job) && r.calls + 1 + |job.plan.patches| !in remote.failing
  }

  lemma OpensExactly(policy: AutonomyPolicy, commands: map<string, seq<string>>, remote: Remote, r: Repo, job: Job)
    ensures
      var (r', result) := Outcome(policy, commands, remote, r, job);
      && (r'.prs != r.prs <==> Opens(policy, commands, remote, r, job))
      && (r'.prs != r.prs <==> result.Finished? && result.status == PrOpened)
  {
    hide Validations, AllPass, Overlay, BranchName, Permitted, MayWrite, Sound, AutonomyPolicy.Classify;
    PermittedExactly(policy, job);
    SoundExactly(commands, job);
    LandedAll(remote.failing, r.calls + 1, |job.plan.patches|);
  }

  /** Which status a request ends with. A request whose writer call fails raises instead. */
  lemma StatusExactly(policy: AutonomyPolicy, commands: map<string, seq<string>>, remote: Remote, r: Repo, job: Job)
    ensures
      var result := Outcome(policy, commands, remote, r, job).1;
      var c, patches := job.plan.changeClass, job.plan.patches;
      var blocked := c in policy.blockedClasses
                     || exists i :: 0 <= i < |patches| && Under(patches[i].path, policy.blockedPrefixes);
      var written := Branches(policy, remote, r, job) && Lands(remote, r, job, |patches|);
      && (result.Finished? && result.status == BlockedByPolicy <==> blocked)
      && (result.Finished? && result.status == RequiresHumanReview <==> !blocked && !MayWrite(policy, job))
      && (result.Finished? && result.status == ValidationFailed <==> written && !Sound(commands, job))
      && (result.Finished? && result.status == PrOpened <==> Opens(policy, commands, remote, r, job))
  {
    hide Validations, AllPass, Overlay, BranchName, Sound, Under, AnyBlocked, AllLowRisk, AutonomyPolicy.Classify;
    PermittedExactly(policy, job);
    SoundExactly(commands, job);
    LandedAll(remote.failing, r.calls + 1, |job.plan.patches|);
    ClassifyExactly(policy, job.plan.changeClass, PathsOf(job.plan.patches));
    PathsAre(policy, job.plan.patches);
  }

  /** What a request that does not raise reports. */
  lemma ReportExactly(policy: AutonomyPolicy, commands: map<string, seq<string>>, remote: Remote, r: Repo, job: Job)
    ensures
      var (r', result) := Outcome(policy, commands, remote, r, job);
      var decision := policy.Classify(job.plan.changeClass, PathsOf(job.plan.patches));
      result.Finished? ==>
        && result.mode == decision.mode
        && result.reason == (if result.status == ValidationFailed then VALIDATION_REASON else decision.reason)
        && result.branch == (if MayWrite(policy, job) then BranchName(job.plan.changeClass, job.stamp) else "")
        && result.validations == (if MayWrite(policy, job) then Validations(commands, job) else [])
        && (result.pr.Some? <==> result.status == PrOpened)
        && (result.pr.Some? ==> r'.prs != [] && result.pr.value == r'.prs[|r'.prs| - 1].number)
  {
    hide Validations, AllPass, Overlay, BranchName, Permitted, MayWrite, AutonomyPolicy.Classify;
    PermittedExactly(policy, job);
  }

  /** A pull request is opened if and only if the policy permits, no writer call fails, the branch is
      new on an existing base and every validation passes; its head then holds all the patches. */
  lemma PrExactlyWhen(policy: AutonomyPolicy, commands: map<string, seq<string>>, remote: Remote, r: Repo, job: Job)
    ensures
      var (r', result) := Outcome(policy, commands, remote, r, job);
      var branch := BranchName(job.plan.changeClass, job.stamp);
      var n := |job.plan.patches|;
      && (r'.prs != r.prs <==> Opens(policy, commands, remote, r, job))
      && (r'.prs != r.prs <==> result.Finished? && result.status == PrOpened)
      && (r'.prs != r.prs ==>
            r'.prs == r.prs
              + [PullRequest(remote.number(r.calls + 1 + n), branch, job.plan.baseBranch, job.plan.title, true)]
            && r'.branches[branch] == Overlay(r.branches[job.plan.baseBranch], job.plan.patches))
  {
    OpensExactly(policy, commands, remote, r, job);
    assert job.plan.patches[..|job.plan.patches|] == job.plan.patches;
  }

  // ----- Runs of the lane -----

  function RepoAt(policy: AutonomyPolicy, commands: map<string, seq<string>>, remote: Remote, r0: Repo,
                  jobs: seq<Job>, n: nat): Repo
    requires n <= |jobs|
  {
    if n == 0 then r0
    else Outcome(policy, commands, remote, RepoAt(policy, commands, remote, r0, jobs, n - 1), jobs[n - 1]).0
  }

  /** A pull request that some permitted, fully validated job of the run explains, and whose head still
      holds that job's patches over the base as it stands. */
  ghost predicate Explained(
    policy: AutonomyPolicy, commands: map<string, seq<string>>, r: Repo, pr: PullRequest, job: Job)
  {
    MayWrite(policy, job) && Sound(commands, job) && pr.title == job.plan.title && pr.draft
    && pr.base == job.plan.baseBranch && pr.base in r.branches && pr.head in r.branches
    && r.branches[pr.head] == Overlay(r.branches[pr.base], job.plan.patches)
  }

  ghost predicate SomeExplains(
    policy: AutonomyPolicy, commands: map<string, seq<string>>, r: Repo, pr: PullRequest, jobs: seq<Job>, n: nat)
    requires n <= |jobs|
  {
    exists j :: 0 <= j < n && Explained(policy, commands, r, pr, jobs[j])
  }

  ghost predicate AllExplained(
    policy: AutonomyPolicy, commands: map<string, seq<string>>, r: Repo, from: nat, jobs: seq<Job>, n: nat)
    requires n <= |jobs|
  {
    forall i :: from <= i < |r.prs| ==> SomeExplains(policy, commands, r, r.prs[i], jobs, n)
  }

  /** What explains a pull request goes on explaining it while branches are kept. */
  lemma ExplainedPersists(
    policy: AutonomyPolicy, commands: map<string, seq<string>>, r: Repo, r': Repo, from: nat, jobs: seq<Job>, n: nat)
    requires n < |jobs| && AllExplained(policy, commands, r, from, jobs, n) && r.prs <= r'.prs
    requires forall b :: b in r.branches ==> b in r'.branches && r'.branches[b] == r.branches[b]
    requires forall i :: |r.prs| <= i < |r'.prs| ==> Explained(policy, commands, r', r'.prs[i], jobs[n])
    ensures AllExplained(policy, commands, r', from, jobs, n + 1)
  {
    forall i | from <= i < |r'.prs|
      ensures SomeExplains(policy, commands, r', r'.prs[i], jobs, n + 1)
    {
      if i < |r.prs| {
        assert r'.prs[i] == r.prs[i];
        var j :| 0 <= j < n && Explained(policy, commands, r, r.prs[i], jobs[j]);
        assert Explained(policy, commands, r', r'.prs[i], jobs[j]);
      } else {
        assert Explained(policy, commands, r', r'.prs[i], jobs[n]);
      }
    }
  }

  /** What a run keeps: earlier branches and pull requests stay, and the new ones are explained. */
  ghost predicate Kept(
    policy: AutonomyPolicy, commands: map<string, seq<string>>, r0: Repo, r: Repo, jobs: seq<Job>, n: nat)
    requires n <= |jobs|
  {
    && r0.prs <= r.prs
    && (forall b :: b in r0.branches ==> b in r.branches && r.branches[b] == r0.branches[b])
    && AllExplained(policy, commands, r, |r0.prs|, jobs, n)
  }

  /** A run so far keeps what it should. */
  ghost predicate KeptAt(
    policy: AutonomyPolicy, commands: map<string, seq<string>>, remote: Remote, r0: Repo, jobs: seq<Job>, n: nat)
    requires n <= |jobs|
  {
    Kept(policy, commands, r0, RepoAt(policy, commands, remote, r0, jobs, n), jobs, n)
  }

  lemma LaneStart(
    policy: AutonomyPolicy, commands: map<string, seq<string>>, remote: Remote, r0: Repo, jobs: seq<Job>)
    ensures KeptAt(policy, commands, remote, r0, jobs, 0)
  {
  }

  lemma LaneNext(
    policy: AutonomyPolicy, commands: map<string, seq<string>>, remote: Remote, r0: Repo, jobs: seq<Job>, n: nat)
    requires n < |jobs| && KeptAt(policy, commands, remote, r0, jobs, n)
    ensures KeptAt(policy, commands, remote, r0, jobs, n + 1)
  {
    var r := RepoAt(policy, commands, remote, r0, jobs, n);
    var r' := RepoAt(policy, commands, remote, r0, jobs, n + 1);
    BranchHoldsPrefix(policy, commands, remote, r, jobs[n]);
    PrExactlyWhen(policy, commands, remote, r, jobs[n]);
    ExplainedPersists(policy, commands, r, r', |r0.prs|, jobs, n);
  }

  /** Over any run of requests with any pattern of writer failures, the branches that were there are
      never changed, and every pull request of the run is explained by a permitted job whose complete,
      validated patches its head still holds. */
  lemma {:induction false} LaneRun(
    policy: AutonomyPolicy, commands: map<string, seq<string>>, remote: Remote, r0: Repo, jobs: seq<Job>, n: nat)
    requires n <= |jobs|
    ensures KeptAt(policy, commands, remote, r0, jobs, n)
  {
    hide *;
    if n > 0 {
      LaneRun(policy, commands, remote, r0, jobs, n - 1);
      LaneNext(policy, commands, remote, r0, jobs, n - 1);
    } else {
      LaneStart(policy, commands, remote, r0, jobs);
    }
  }
}
