/** The status machine around `apply`: `approve_and_apply` of git_changesets/service.py, and what
    holds over any number of attempts. */
module GitService {
  import opened GitTrees
  import opened GitChangesets
  import opened Faults
  import opened Options

  datatype Status = PendingApproval | Applying | Applied | Failed(code: string) | Rejected

  class CommitAction {
    const c: Changeset
    var status: Status
    var resulting: Option<Oid>

    constructor (c: Changeset)
      ensures this.c == c && status == PendingApproval && resulting == None
    {
      this.c, status, resulting := c, PendingApproval, None;
    }

    /** `eligible`: the workflow, its QA verdict and the mutation log still support the changeset.
        `satisfied`: the approval is granted and policy still asks for it.  A database commit or
        the process may fail at each `Mishap`; `attempt` is how the call of `apply` ended, if any. */
    method ApproveAndApply(
        repo: Repository, eligible: bool, satisfied: bool, raced: Option<Oid>, calm: bool, ghost origin: set<Oid>)
      returns (r: Outcome<()>, ghost attempt: Option<Outcome<Oid>>)
      requires PreparedAt(origin, c)
      modifies this, repo, repo.store
      ensures attempt.None? ==> repo.State() == old(repo.State())
      ensures attempt.Some? ==> eligible && satisfied && old(status) !in {Applied, Rejected}
      ensures attempt.Some? ==> AttemptEnds(old(repo.State()), repo.State(), c, raced, attempt.value)
      ensures !(eligible && satisfied && old(status) !in {Applied, Rejected}) ==>
        status == old(status) && resulting == old(resulting)
      ensures r.Ok? <==> status == Applied
      ensures old(status) == Rejected ==> r == Refused("git_action_invalid_state")
      ensures old(status) !in {Applied, Rejected} && !eligible ==> r == Refused("git_stale_changeset")
      ensures old(status) !in {Applied, Rejected} && eligible && !satisfied ==> r == Refused("approval_not_satisfied")
      ensures status == old(status) || status.Applying? || status.Failed? || status.Applied?
      ensures status.Failed? && status != old(status) ==> attempt == Some(Refused(status.code))
      ensures attempt.Some? && r.Refused? ==> attempt == Some(Refused(r.code)) && status == Failed(r.code)
      ensures attempt.Some? && r.Crashed? ==> status == Applying
      ensures status == Applied <==> old(status) == Applied || (attempt.Some? && attempt.value.Ok? && r.Ok?)
      ensures status == Applied && old(status) != Applied ==> resulting == Some(c.expected)
      ensures calm && eligible && satisfied && old(status) !in {Applied, Rejected} ==>
        && attempt.Some? && CalmEnds(old(repo.State()), c, raced, origin, attempt.value)
        && (attempt.value.Ok? ==> status == Applied)
        && (attempt.value.Refused? ==> status == Failed(attempt.value.code))
      ensures calm && eligible && satisfied && old(status) !in {Applied, Rejected} ==>
        && (Stale(old(repo.State()), c, origin) || Raced(old(repo.State()), c, raced, origin) ==> status.Failed?)
        && (CanApply(old(repo.State()), c, origin) && !Raced(old(repo.State()), c, raced, origin) ==> status == Applied)
    {
      hide PreparedAt, AttemptEnds, CalmEnds, WorktreeMatches;
      attempt := None;
      ghost var found := repo.State();
      if status == Applied {
        return Ok(()), None;
      }
      if !Attemptable(status) {
        return Refused("git_action_invalid_state"), None;
      }
      if !eligible {
        return Refused("git_stale_changeset"), None;
      }
      if !satisfied {
        return Refused("approval_not_satisfied"), None;
      }
      status := Applying;
      var mishap := Mishap(calm);
      if mishap {
        return Crashed, None;
      }
      var sha := repo.Apply(c, raced, calm, origin);
      attempt := Some(sha);
      if calm {
        StaleFails(found, c, raced, origin, sha);
        ApplicableIsApplied(found, c, raced, origin, sha);
      }
      if sha.Crashed? {
        return Crashed, attempt;
      }
      mishap := Mishap(calm);
      if mishap {
        return Crashed, attempt;
      }
      if sha.Refused? {
        status := Failed(sha.code);
        return Refused(sha.code), attempt;
      }
      status, resulting := Applied, Some(sha.value);
      return Ok(()), attempt;
    }
  }

  /** Branch, HEAD, index or a working file is not as prepared. */
  ghost predicate Stale(s: RepoState, c: Changeset, origin: set<Oid>) {
    || s.branch != c.branch
    || s.head !in {c.head, c.expected}
    || (s.head == c.head && s.index != c.index)
    || (InPlace(s, c, origin) && !WorktreeMatches(s.worktree, c))
  }

  ghost predicate Raced(s: RepoState, c: Changeset, raced: Option<Oid>, origin: set<Oid>) {
    CanApply(s, c, origin) && LosesRace(s, c, raced)
  }

  lemma StaleFails(s: RepoState, c: Changeset, raced: Option<Oid>, origin: set<Oid>, r: Outcome<Oid>)
    requires CalmEnds(s, c, raced, origin, r)
    ensures Stale(s, c, origin) || Raced(s, c, raced, origin) ==> r.Refused?
  {
    if InPlace(s, c, origin) && !WorktreeMatches(s.worktree, c) {
      var i := SomeIsFirstStale(s.worktree, c);
    }
  }

  lemma ApplicableIsApplied(s: RepoState, c: Changeset, raced: Option<Oid>, origin: set<Oid>, r: Outcome<Oid>)
    requires CalmEnds(s, c, raced, origin, r)
    ensures CanApply(s, c, origin) && !Raced(s, c, raced, origin) ==> r.Ok?
  {
  }

  predicate Attemptable(status: Status) {
    status.PendingApproval? || status.Applying? || status.Failed?
  }

  /** What other processes did to the repository since the last attempt. */
  datatype Interference = Interference(
    head: Option<Oid>, index: Option<Index>, worktree: Option<map<Path, WorkFile>>, objects: Option<set<Oid>>)

  datatype Try = Try(env: Interference, eligible: bool, satisfied: bool, raced: Option<Oid>, calm: bool)

  const QUIET := Interference(None, None, None, None)

  /** How often somebody else put the branch back to the prepared head. */
  function Resets(c: Changeset, plan: seq<Try>): nat {
    if plan == [] then 0
    else Resets(c, plan[..|plan| - 1]) + if plan[|plan| - 1].env.head == Some(c.head) then 1 else 0
  }

  predicate Undisturbed(plan: seq<Try>) {
    forall i :: 0 <= i < |plan| ==> plan[i].env == QUIET && plan[i].raced.None?
  }

  method Interfere(repo: Repository, env: Interference)
    modifies repo, repo.store
    ensures repo.moves == old(repo.moves) && repo.branch == old(repo.branch)
    ensures repo.head == if env.head.Some? then env.head.value else old(repo.head)
    ensures env == QUIET ==> repo.State() == old(repo.State())
  {
    if env.head.Some? {
      repo.head := env.head.value;
    }
    if env.index.Some? {
      repo.index := env.index.value;
    }
    if env.worktree.Some? {
      repo.worktree := env.worktree.value;
    }
    if env.objects.Some? {
      repo.store.objects := env.objects.value;
    }
  }

  /** Interrupted anywhere, an action that could be applied still can be. */
  lemma AttemptKeepsCanApply(s0: RepoState, s1: RepoState, c: Changeset, r: Outcome<Oid>, origin: set<Oid>)
    requires PreparedAt(origin, c) && CanApply(s0, c, origin)
    requires AttemptEnds(s0, s1, c, None, r)
    ensures CanApply(s1, c, origin)
  {
    ExpectedIsNew(origin, c);
  }

  /** Every update goes from the prepared head to the expected commit, and their number is bounded. */
  ghost predicate MovesBounded(c: Changeset, resets: nat, s: RepoState) {
    (forall k :: 0 <= k < |s.moves| ==> s.moves[k] == (c.head, c.expected)) &&
    |s.moves| <= resets + if s.head == c.head then 0 else 1
  }

  lemma AttemptKeepsBound(
      c: Changeset, resets: nat, s0: RepoState, s1: RepoState, raced: Option<Oid>, r: Outcome<Oid>, origin: set<Oid>)
    requires PreparedAt(origin, c) && MovesBounded(c, resets, s0)
    requires AttemptEnds(s0, s1, c, raced, r)
    ensures MovesBounded(c, resets, s1)
  {
    ExpectedIsNew(origin, c);
  }

  lemma InterferenceKeepsBound(c: Changeset, plan: seq<Try>, i: nat, s0: RepoState, s1: RepoState)
    requires i < |plan| && MovesBounded(c, Resets(c, plan[..i]), s0) && s1.moves == s0.moves
    requires s1.head == if plan[i].env.head.Some? then plan[i].env.head.value else s0.head
    ensures MovesBounded(c, Resets(c, plan[..i + 1]), s1)
  {
    assert plan[..i + 1][..i] == plan[..i];
  }

  lemma AttemptApplies(s0: RepoState, s1: RepoState, c: Changeset, raced: Option<Oid>, r: Outcome<Oid>)
    requires AttemptEnds(s0, s1, c, raced, r) && r.Ok?
    ensures AppliedFrom(c, s0, s1)
  {
  }

  /** The attempts that reached APPLIED, as the states before and after them. */
  ghost predicate AppliedWell(c: Changeset, applied: seq<(RepoState, RepoState)>) {
    forall k :: 0 <= k < |applied| ==> AppliedFrom(c, applied[k].0, applied[k].1)
  }

  /** HEAD is at the expected commit and exactly the prepared index entries were replaced. */
  ghost predicate AppliedFrom(c: Changeset, s0: RepoState, s1: RepoState) {
    s1.head == c.expected && IndexApplied(s0.worktree, s0.index, s1.index, Replacements(c.paths))
  }

  predicate Granted(plan: seq<Try>) {
    exists k :: 0 <= k < |plan| && plan[k].satisfied && plan[k].eligible
  }

  /** The last attempt met no mishap, and was eligible and approved. */
  predicate CalmEnd(plan: seq<Try>) {
    plan != [] && var last := plan[|plan| - 1]; last.calm && last.eligible && last.satisfied
  }

  /** Main result, exactly once: over any number of attempts, with crashes anywhere, races on the
      branch and arbitrary interference in between, every branch update made by this code goes from
      the prepared head to the expected commit, and there is at most one more of them than there are
      outside resets to the prepared head.  The action becomes APPLIED at most once, and that attempt
      returned with HEAD at the expected commit and exactly the prepared index entries replaced.
      Undisturbed, an action that could be applied at first is APPLIED at the first eligible and
      approved attempt without mishaps, wherever earlier ones were interrupted. */
  method Attempts(action: CommitAction, repo: Repository, plan: seq<Try>, ghost origin: set<Oid>)
    returns (ghost applied: seq<(RepoState, RepoState)>)
    requires PreparedAt(origin, action.c) && action.status == PendingApproval && repo.moves == []
    modifies action, repo, repo.store
    ensures forall k :: 0 <= k < |repo.moves| ==> repo.moves[k] == (action.c.head, action.c.expected)
    ensures |repo.moves| <= 1 + Resets(action.c, plan)
    ensures action.status != Rejected
    ensures |applied| == (if action.status == Applied then 1 else 0) && AppliedWell(action.c, applied)
    ensures action.status == Applied ==> Granted(plan)
    ensures Undisturbed(plan) && CanApply(old(repo.State()), action.c, origin) ==>
      CanApply(repo.State(), action.c, origin)
    ensures Undisturbed(plan) && CanApply(old(repo.State()), action.c, origin) && CalmEnd(plan) ==>
      action.status == Applied
  {
    hide PreparedAt, CanApply, AttemptEnds, MovesBounded, AppliedFrom, Resets;
    var c := action.c;
    applied := [];
    NoMovesYet(c, repo.State());
    for i := 0 to |plan|
      invariant MovesBounded(c, Resets(c, plan[..i]), repo.State())
      invariant action.status != Rejected
      invariant |applied| == (if action.status == Applied then 1 else 0) && AppliedWell(c, applied)
      invariant action.status == Applied ==> Granted(plan)
      invariant Undisturbed(plan) && CanApply(old(repo.State()), c, origin) ==> CanApply(repo.State(), c, origin)
      invariant Undisturbed(plan) && CanApply(old(repo.State()), c, origin) && CalmEnd(plan[..i]) ==>
        action.status == Applied
    {
      assert plan[..i + 1][..i] == plan[..i] && plan[..i + 1][i] == plan[i];
      var step := plan[i];
      ghost var found := repo.State();
      Interfere(repo, step.env);
      InterferenceKeepsBound(c, plan, i, found, repo.State());
      ghost var s0, before := repo.State(), action.status;
      var r, attempt := action.ApproveAndApply(repo, step.eligible, step.satisfied, step.raced, step.calm, origin);
      ghost var s1 := repo.State();
      if attempt.Some? {
        AttemptKeepsBound(c, Resets(c, plan[..i + 1]), s0, s1, step.raced, attempt.value, origin);
        if step.raced.None? && CanApply(s0, c, origin) {
          AttemptKeepsCanApply(s0, s1, c, attempt.value, origin);
        }
        if action.status == Applied {
          AttemptApplies(s0, s1, c, step.raced, attempt.value);
          assert step.satisfied && step.eligible;
          applied := applied + [(s0, s1)];
        }
      }
    }
    assert plan[..|plan|] == plan;
    BoundAtEnd(c, Resets(c, plan), repo.State());
  }

  lemma NoMovesYet(c: Changeset, s: RepoState)
    requires s.moves == []
    ensures MovesBounded(c, Resets(c, []), s)
  {
  }

  lemma BoundAtEnd(c: Changeset, resets: nat, s: RepoState)
    requires MovesBounded(c, resets, s)
    ensures |s.moves| <= 1 + resets && forall k :: 0 <= k < |s.moves| ==> s.moves[k] == (c.head, c.expected)
  {
  }
}
