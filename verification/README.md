# Verification model of the Novalton core

This project models the parts of the Novalton repository whose correctness depends on more than one function, and
proves what they promise. Each module is self-contained Dafny; `dafny verify dfyconfig.toml` checks all of it.

- **Local git changesets** (`GitTrees`, `GitRewrite`, `GitStore`, `GitChangesets`, `GitProof`, `GitService`,
  `MutationLog`). A log of approved mutations is collapsed to one change per path, a commit id is predicted without
  writing anything, then a recursive tree is rewritten, the branch is compare-and-swapped and the index patched, with a
  recovery path after a crash and an independent re-proof. Object ids are the terms that describe their objects, so
  equal ids mean equal contents; a store is the set of ids present; a repository is objects, branch, index and worktree.
- **GitHub publication and decisions** (`RemoteRepository`, `Publication`, `Decisions`, `DecisionRoutes`). A retryable
  protocol against a remote whose calls may fail before or after taking effect, gated by a one-shot decision record.
- **Task order** (`Lexicographic`, `TaskOrder`). Kahn's algorithm with a least-key heap.
- **Syscall filter** (`Seccomp`). A generator of filter programs, an interpreter for them, and the policy they encode.
- **Upgrade** (`Upgrade`). The install transition with a possible failure at every step.
- **Snapshot digests** (`DecimalNotation`, `Framing`, `SortedFiles`, `SnapshotTrees`, `AdmittedFiles`, `SnapshotWalks`).
  Two separately written traversals of a directory tree and the byte stream both of them hash.
- **Verification worker** (`Worker`, `WorkerRuns`, `WorkerProcess`). Requests, probe completion and restart as a state
  machine, its runs, and the process whose fields move with it.
- **Context packages** (`PackageSize`, `ContextPackages`, `ContextSelection`). Bounded assembly and filtering of a package that states its
  own size.
- **Contracts** (`ContractPaths`, `PathSpelling`, `PathInstances`, `ContractSchema`, `ContractSoundness`). Paths and the
  values they mean, constraints compiled into a schema with shared nodes, and what the compiled schema guarantees about
  the payloads it accepts.
- **Execution** (`AgentRuns`, `ExecutionProtocol`, `ExecutionOutcomes`, `Execution`). The protocol that bounds the model
  calls of an agent run, as a function of the situation and of the provider's answers; how a run ends, read off these
  directly; and the code that carries it out.

Code that changes state is a class or a method with loops, proved against functions and predicates over plain values;
the main results are lemmas and contracts over those. Failures that are not modelled (I/O errors, lost database
commits, crashes) come from `Faults.Mishap`; a parameter `calm` rules them out where a contract promises success.

## Where the code does less than its description

For each of these there is an exact condition and a witness that the failing family is inhabited.

- `_replace_tree` collects `child_names` from all replacements without looking at their directory
  (`local.py:283`), so a changeset over sibling directories can raise. `GitRewrite.RewriteReturnsIff` says exactly when
  it returns; `GitRewrite.SiblingDirectoriesRaise` is a failing changeset.
- The worker sorts the names of every directory it enters by their encoded form (`i044a.py:200`), excluded names
  included, and fails on a name that is not UTF-8; the adapter encodes only the paths of admitted files
  (`verification_sandbox.py:149`). `SnapshotTrees.TraversalsAgree` adds that condition to the agreement;
  `SnapshotTrees.ExcludedNameDisagrees` is a tree on which the two differ.
- The adapter reads a commit only if it has exactly one parent (`http_adapter.py:257-266`), so a publication on a merge
  or root commit cannot succeed. `Publication.Attempts` shows that, undisturbed, a ready publication ends PUBLISHED at a
  favourable attempt if and only if its parent is readable, and FAILED with `parent_read_failed` otherwise;
  `Publication.RootParent` is a ready publication on a root commit.
- `publish` reads its local objects again with the changes of the proof it was prepared with
  (`github_publications/service.py:273-285`), and those lack `head_blob_id` and `preimage_sha256` (`local.py:528-536`),
  which the proof of every path asks for (`local.py:520-525`). `GitProof.ReadAgainIffEmpty` says that this succeeds if and only if nothing changed, and
  `GitProof.ApplyAndReprove` that it never does for an applied changeset. So publication stops before PUBLISHING;
  `Publication` is about what follows once the objects can be read (`Circumstances.readable`).
- A bare `asyncio.CancelledError` during a truncation retry or a repair (`execution.py:1354`, `execution.py:1525`), and
  an unexpected exception or refused usage figures during a continuation (`execution.py:628-729`), escape the handlers
  and leave the model run and the agent run RUNNING. `ExecutionProtocol.EscapesExactly` and
  `Execution.OpenExactlyIfAbandoned` say on which situations and answers this happens; `Execution.CancelledDuringRetry`
  and `ExecutionProtocol.AbandonedRuns` are such executions.
- A continuation compiles the contract again without the shape constraints (`execution.py:536`), so a run that has any
  never reaches its continuation call: `ExecutionProtocol.ContinuesExactly` says when there is one, with the last run of
  `ExecutionProtocol.AbandonedRuns` as an example of a tool round that fails instead.
- A constraint that a later one overwrites on the same schema node is checked locally but may be lost from the schema
  (`contract_execution.py:365-379`). `ContractSoundness.CompiledConstraintIsExact` says that it is enforced if and only
  if the keywords the node is left with imply it; `ContractSoundness.OverwrittenConstraint` is one that is lost, and
  `ContractSoundness.StricterKeeps`, with `ContractSoundness.OverwrittenIsImplied` for an instance, shows that overwriting
  alone does not lose it.

## Model

| member | source | states |
|---|---|---|
| GitTrees.FindTreeEntry | apps/api/src/novalton_api/modules/git_changesets/local.py:138-154 | the component-by-component lookup computes the recursive lookup, with the code of each refusal and the missing-object crash |
| GitTrees.FlattenAt | apps/api/src/novalton_api/modules/git_changesets/local.py:157-170 | flattening a tree gives at every path exactly the file entry that path resolves to |
| GitTrees.TreeEntries | apps/api/src/novalton_api/modules/git_changesets/local.py:157-170 | succeeds if and only if every subtree is present, and then returns the flattened tree |
| GitTrees.EntriesBelow | apps/api/src/novalton_api/modules/git_changesets/local.py:157-170 | one name of a tree contributes itself or the flattened subtree, and fails exactly if a subtree is missing |
| GitRewrite.RewriteOverrides | apps/api/src/novalton_api/modules/git_changesets/local.py:273-303 | a rewrite that returns equals the base tree overridden at exactly the replaced paths, at every path |
| GitRewrite.RewriteReturnsIff | apps/api/src/novalton_api/modules/git_changesets/local.py:281-291 | on resolved paths the rewrite returns if and only if each directory on the way has every name that any replacement has at that depth |
| GitRewrite.SameDirectoryReturns | apps/api/src/novalton_api/modules/git_changesets/local.py:281-291 | replacements within one directory always return |
| GitRewrite.SiblingDirectoriesRaise | apps/api/src/novalton_api/modules/git_changesets/local.py:281-291 | two existing files in two sibling directories make the rewrite raise |
| GitRewrite.RewriteRaisesBecause | apps/api/src/novalton_api/modules/git_changesets/local.py:283-289 | a missing name one level down is enough to raise |
| GitRewrite.RewriteIndependentOfStore | apps/api/src/novalton_api/modules/git_changesets/local.py:293-303 | the rewritten id does not depend on which store it was computed from |
| GitRewrite.ResolvedIsLeaf | apps/api/src/novalton_api/modules/git_changesets/local.py:138-154 | a path that the lookup resolves to a file is the leaf that flattening has there |
| GitStore.ObjectStore.ReplaceTree | apps/api/src/novalton_api/modules/git_changesets/local.py:273-303 | returns the same id for persist true and false; persisting only adds objects and leaves the new tree complete; otherwise nothing is written |
| GitStore.ObjectStore.ReplaceEntry | apps/api/src/novalton_api/modules/git_changesets/local.py:286-300 | one name of the rewrite, with the same id and the same effect on the store |
| GitChangesets.Repository.Prepare | apps/api/src/novalton_api/modules/git_changesets/local.py:196-270 | success, possible exactly under the preparation conditions, yields a changeset whose expected id is the rewrite of the head; nothing is written |
| GitChangesets.Repository.PreparePath | apps/api/src/novalton_api/modules/git_changesets/local.py:211-253 | a path is accepted exactly when tree, index, preimage and worktree agree with the candidate, and refused with the code of what does not |
| GitChangesets.Repository.PreparePaths | apps/api/src/novalton_api/modules/git_changesets/local.py:211-253 | all candidates are accepted or none, and undisturbed exactly if each is ready |
| GitChangesets.PlannedIsPrepared | apps/api/src/novalton_api/modules/git_changesets/local.py:411-443 | ready candidates give a prepared changeset, and the prediction of its id returns exactly when the names agree |
| GitChangesets.PreparedResolves | apps/api/src/novalton_api/modules/git_changesets/local.py:281-291 | prepared paths resolve to files in the head tree, which is what the rewrite results ask for |
| GitChangesets.Repository.WriteIndexEntries | apps/api/src/novalton_api/modules/git_changesets/local.py:388-408 | exactly the accepted entries change, to the accepted object and the data of the working file, and all other entries stay; a failure writes nothing |
| GitChangesets.Repository.Recover | apps/api/src/novalton_api/modules/git_changesets/local.py:322-337 | with HEAD at the expected commit the branch is not moved and only the prepared index entries are rewritten |
| GitChangesets.Repository.RecoverBlobs | apps/api/src/novalton_api/modules/git_changesets/local.py:324-335 | recovery accepts only blobs with the worktree contents and yields the prepared replacements |
| GitChangesets.Repository.BuildObjects | apps/api/src/novalton_api/modules/git_changesets/local.py:350-381 | objects are only added, the commit and its complete tree end up present, and the identity-mismatch error never occurs |
| GitChangesets.Repository.Land | apps/api/src/novalton_api/modules/git_changesets/local.py:382-385 | the branch moves once from head to expected commit unless it was raced, before the index is touched |
| GitChangesets.Repository.Apply | apps/api/src/novalton_api/modules/git_changesets/local.py:306-386 | every ending of one attempt: at most one branch move, from the prepared head to the expected commit, and only with branch, index and working files as prepared; success means HEAD and index are as prepared; without faults it succeeds exactly from a prepared or interrupted state, and otherwise names the branch, HEAD, index or first working file that is stale, or the lost race |
| GitChangesets.ExpectedIsNew | apps/api/src/novalton_api/modules/git_changesets/local.py:411-443 | the predicted commit is never the head itself |
| GitService.CommitAction.ApproveAndApply | apps/api/src/novalton_api/modules/git_changesets/service.py:348-424 | the status machine: APPLIED if and only if already APPLIED or an eligible, approved attempt returned; a refused attempt ends FAILED with its code and a crashed one stays APPLYING; without faults an eligible, approved attempt ends APPLIED if the changeset is applicable and FAILED if branch, HEAD, index or a working file is stale or the race is lost; what is not eligible or approved is refused and touches nothing |
| GitService.Attempts | apps/api/src/novalton_api/modules/git_changesets/service.py:348-424 | over any number of attempts with crashes, races and interference, all branch moves go from prepared head to expected commit, at most one more than outside resets, and APPLIED is reached at most once and by approval; undisturbed, an applicable changeset is APPLIED after the first approved attempt without faults, whatever failed before |
| GitService.AttemptKeepsCanApply | apps/api/src/novalton_api/modules/git_changesets/local.py:306-386 | an attempt interrupted anywhere leaves a state from which the next undisturbed attempt succeeds |
| GitService.AttemptKeepsBound | apps/api/src/novalton_api/modules/git_changesets/local.py:382-385 | an attempt spends its one branch move or leaves it for a later one |
| GitProof.Revalidate | apps/api/src/novalton_api/modules/git_changesets/local.py:446-546 | succeeds if and only if the commit has the one expected parent, tree and metadata and differs from its parent at exactly the recorded paths with the recorded blobs and modes; otherwise names the first of these that fails |
| GitProof.CheckChanges | apps/api/src/novalton_api/modules/git_changesets/local.py:500-526 | accepts exactly complete trees that differ at exactly the recorded paths, each as recorded |
| GitProof.CheckPaths | apps/api/src/novalton_api/modules/git_changesets/local.py:506-536 | the path loop accepts exactly if every recorded path is as recorded, and lists what it found |
| GitProof.CheckPath | apps/api/src/novalton_api/modules/git_changesets/local.py:508-536 | one recorded path is accepted exactly when both trees hold the recorded blob and mode with the recorded hashes, and the record says what was there before |
| GitProof.AppliedIsReproved | apps/api/src/novalton_api/modules/git_changesets/local.py:446-546 | a commit that apply produced is re-proved if and only if every prepared path changed its blob |
| GitProof.ApplyAndReprove | apps/api/src/novalton_api/modules/git_changesets/local.py:196-546 | preparing, applying and proving again: what apply left is accepted if and only if every prepared path changed its blob, and what that proof records is never accepted again |
| GitProof.ReadObjects | apps/api/src/novalton_api/modules/git_changesets/local.py:549-582 | returns the recorded blobs with their contents exactly if the commit is proven |
| GitProof.ReadAgainIffEmpty | apps/api/src/novalton_api/modules/github_publications/service.py:273-285 | asked again with the changes of its own proof, a proven commit is accepted if and only if it changed nothing |
| GitProof.RewrittenLeaf | apps/api/src/novalton_api/modules/git_changesets/local.py:273-303 | the expected tree is the head tree overridden by the changeset |
| MutationLog.Group | apps/api/src/novalton_api/modules/git_changesets/service.py:163-169 | grouping yields per path the calls on it in order, and the paths in order of first appearance |
| MutationLog.SeenInOrder | apps/api/src/novalton_api/modules/git_changesets/service.py:163-169 | the paths are listed in the order of their first calls |
| MutationLog.Collapse | apps/api/src/novalton_api/modules/git_changesets/service.py:163-183 | accepts exactly the evidenced logs whose replay from the first preimages never mismatches, and says which of the two fails; every path of the log gets one pair, the start and end of that replay there |
| MutationLog.CollapseGroups | apps/api/src/novalton_api/modules/git_changesets/service.py:170-182 | the groups collapse exactly if the calls of every path chain up |
| MutationLog.ReplayIffChained | apps/api/src/novalton_api/modules/git_changesets/service.py:171-174 | the interleaved replay succeeds if and only if the calls of every path chain up |
| MutationLog.CollapsedPair | apps/api/src/novalton_api/modules/git_changesets/service.py:175-182 | first preimage and last candidate of a path are the replay start and end there |
| RemoteRepository.IdentityReadBack | apps/api/src/novalton_api/modules/github_publications/http_adapter.py:319-321 | an identity with a name and an e-mail address is split and shown as it was |
| RemoteRepository.FindPullAppended | apps/api/src/novalton_api/modules/github_publications/http_adapter.py:342-355 | a new pull request is found only if none matched before it |
| RemoteRepository.FindPullIsFirst | apps/api/src/novalton_api/modules/github_publications/http_adapter.py:342-355 | what is found is the first pull request for head and base, and something is found if there is one |
| RemoteRepository.NoAddress | apps/api/src/novalton_api/modules/github_publications/http_adapter.py:319-321 | an identity without an address is used for name and address |
| RemoteRepository.Remote.Commit | apps/api/src/novalton_api/modules/github_publications/http_adapter.py:240-306 | a read that answers is the stored commit, and commits without exactly one parent or with empty texts are an error |
| RemoteRepository.Remote.CreateBranch | apps/api/src/novalton_api/modules/github_publications/http_adapter.py:178-188 | creates the ref or nothing, with or without an answer, and never touches an existing ref |
| RemoteRepository.Remote.CreatePullRequest | apps/api/src/novalton_api/modules/github_publications/http_adapter.py:381-390 | opens one pull request or nothing, with or without an answer |
| Publication.UploadBlobs | apps/api/src/novalton_api/modules/github_publications/service.py:287-303 | afterwards every blob is on the remote; without faults it stops exactly at the first blob that is there or stored under another id |
| Publication.EnsureTree | apps/api/src/novalton_api/modules/github_publications/service.py:308-330 | afterwards parent and tree are on the remote; without faults it ends as what is on the remote decides: an unreadable or foreign parent, a foreign tree |
| Publication.ReadParent | apps/api/src/novalton_api/modules/github_publications/service.py:308-315 | goes on exactly with a parent that is there under its own id and readable, and yields its tree |
| Publication.EnsureCommit | apps/api/src/novalton_api/modules/github_publications/service.py:331-363 | afterwards the remote commit matches the local one in every field; without faults a conflict is reported exactly if it does not |
| Publication.EnsureBranch | apps/api/src/novalton_api/modules/github_publications/service.py:370-385 | afterwards the branch is at the local commit; an uncertain creation that took effect is found by reading again; a branch elsewhere is a conflict and is not moved |
| Publication.EnsurePullRequest | apps/api/src/novalton_api/modules/github_publications/service.py:386-414 | afterwards the first pull request for the pair matches; one is created only if there was none, an uncertain creation that took effect is found by looking again, and one that does not match is a conflict |
| Publication.PublicationAction.Upload | apps/api/src/novalton_api/modules/github_publications/service.py:287-414 | reaching the end means the remote is as published; without faults it ends as the remote decides when it starts |
| Publication.PublicationAction.Mark | apps/api/src/novalton_api/modules/github_publications/service.py:427-442 | status and code are committed together or not at all |
| Publication.PublicationAction.Publish | apps/api/src/novalton_api/modules/github_publications/service.py:219-424 | every ending of one attempt, also with others acting between its remote calls: PUBLISHED only with a satisfied approval and never left, at most one branch and pull request created; with nobody acting, only additions on the remote, and without faults the first thing in the way decides: STALE for a moved base, CONFLICT with its code for a foreign blob, parent, tree, commit, branch or pull request, FAILED only for what cannot be read or made, and PUBLISHED if nothing is |
| Publication.PublicationAction.Enter | apps/api/src/novalton_api/modules/github_publications/service.py:219-286 | the checks up to PUBLISHING create nothing; going on means that all circumstances were favourable |
| Publication.PublicationAction.Finish | apps/api/src/novalton_api/modules/github_publications/service.py:286-424 | from PUBLISHING on: the fields and the pull request number of what was published, or the status and code of the stop |
| Publication.ReadyVerdict | apps/api/src/novalton_api/modules/github_publications/service.py:272-414 | nothing but an unreadable parent is in the way of a ready publication |
| Publication.FitsLate | apps/api/src/novalton_api/modules/github_publications/service.py:287-303 | whether a blob fits can be told before any is sent |
| Publication.Attempts | apps/api/src/novalton_api/modules/github_publications/service.py:219-424 | over any sequential attempts with faults, and others acting between and during them, at most one branch, at the local commit, and one pull request are created; undisturbed, refs never move and a ready publication ends PUBLISHED at the first favourable attempt, whatever failed before, if the parent is readable, and never if it is not |
| Publication.RootParent | apps/api/src/novalton_api/modules/github_publications/http_adapter.py:257-266 | a ready publication on a root commit whose parent is not readable |
| Publication.OpenedIsFound | apps/api/src/novalton_api/modules/github_publications/service.py:386-406 | once a pull request for the pair is opened, a later look finds one |
| Publication.KeptTwice | apps/api/src/novalton_api/modules/github_publications/service.py:370-406 | doing only permitted additions twice is doing only permitted additions, so the second attempt cannot open a second pull request |
| Publication.ReadyIsNotExplained | apps/api/src/novalton_api/modules/github_publications/service.py:272-414 | a ready publication has no reason to become STALE or to be in CONFLICT |
| Publication.ConvergingStep | apps/api/src/novalton_api/modules/github_publications/service.py:234-424 | an attempt keeps a publication ready and out of STALE and CONFLICT |
| Publication.PullOpened | apps/api/src/novalton_api/modules/github_publications/service.py:390-414 | a pull request opened for the pair is the one found from then on |
| Decisions.Approval.Decide | apps/api/src/novalton_api/modules/approvals/service.py:197-249 | a decision leaves PENDING once, with exactly one audit record committed with it; the same decision again changes nothing and the other one conflicts |
| DecisionRoutes.Approve | apps/api/src/novalton_api/modules/approvals/routes.py:80-140 | decides first and carries out only then: undisturbed, an approval that was not rejected ends APPROVED, and a warranted publication or changeset ends as the remote or the repository decides, PUBLISHED or APPLIED where it can; it is served exactly if its record ended so; after a rejection nothing is touched; a publication takes precedence |
| DecisionRoutes.CarryOutPublication | apps/api/src/novalton_api/modules/approvals/routes.py:94-117 | a publication is newly PUBLISHED only if the approval was for exactly it and policy still asks for confirmation; if so and undisturbed, it ends as what is on the remote decides; served exactly if PUBLISHED |
| DecisionRoutes.CarryOutCommit | apps/api/src/novalton_api/modules/approvals/routes.py:121-127 | a changeset is newly APPLIED only if the approval was for exactly it and policy still asks for confirmation; if so and without faults, it ends APPLIED or FAILED as the repository decides; served exactly if APPLIED |
| DecisionRoutes.Reject | apps/api/src/novalton_api/modules/approvals/routes.py:143-180 | after an approval nothing is touched; undisturbed, decision and governed record both end REJECTED and the request is served, also when repeated after a loss |
| DecisionRoutes.Serve | apps/api/src/novalton_api/modules/approvals/routes.py:80-180 | over any requests a decision is final with exactly one audit record, APPLIED and PUBLISHED only under APPROVED, REJECTED only under REJECTED, PUBLISHED and APPLIED never left |
| TaskOrder.ValidateDependencyGraph | apps/api/src/novalton_api/modules/developer_manager/contracts.py:132-159 | accepts exactly plans with unique keys, known dependencies and no cycle, and returns the lexicographically least topological order of the same tasks; otherwise names duplicate keys, the first self or unknown dependency, or the cycle |
| TaskOrder.CountDependencies | apps/api/src/novalton_api/modules/developer_manager/contracts.py:137-146 | indegrees and dependents are those of the dependency graph, or the first fault is reported |
| TaskOrder.Order | apps/api/src/novalton_api/modules/developer_manager/contracts.py:147-156 | popping the least ready key until the heap is empty yields the greedy order, which is complete unless there is a cycle |
| TaskOrder.GreedyIsLeast | apps/api/src/novalton_api/modules/developer_manager/contracts.py:147-156 | the greedy order is topological and least among all topological orders |
| TaskOrder.LeastUnique | apps/api/src/novalton_api/modules/developer_manager/contracts.py:147-156 | there is only one least topological order |
| TaskOrder.TopologicalHasNoCycle | apps/api/src/novalton_api/modules/developer_manager/contracts.py:157-158 | a graph with a topological order has no cycle |
| TaskOrder.StuckHasCycle | apps/api/src/novalton_api/modules/developer_manager/contracts.py:157-158 | if no key is ready before all are done there is a cycle |
| TaskOrder.InputOrderIrrelevant | apps/api/src/novalton_api/modules/developer_manager/contracts.py:132-159 | the canonical order depends only on the set of tasks |
| Lexicographic.BeforeAtFirstDifference | apps/api/src/novalton_api/modules/developer_manager/contracts.py:151 | the order of keys and paths is decided at the first difference |
| TaskOrder.Idempotent | apps/api/src/novalton_api/modules/developer_manager/contracts.py:132-159 | validating an accepted plan again accepts it unchanged |
| Seccomp.FilterIsPolicy | infra/verification/i044a-v2/install.py:51-74 | for every denied list and every call the program ends, in bounds, with the verdict of the policy |
| Seccomp.RunHeader | infra/verification/i044a-v2/install.py:60-70 | a foreign architecture is killed and a clone with a namespace flag refused before any denied number is tested |
| Seccomp.RunDenied | infra/verification/i044a-v2/install.py:71-73 | the denied part refuses exactly the listed numbers and allows the rest |
| Seccomp.ShippedClones | infra/verification/i044a-v2/install.py:51-74 | under the shipped list an ordinary clone passes and clone3 never does |
| Seccomp.LoadPackAll | infra/verification/i044a-v2/install.py:74 | the packed bytes load back to the instructions |
| Seccomp.SeccompPolicy | infra/verification/i044a-v2/install.py:51-74 | the emitted bytes, loaded, run to the verdict of the policy on every call |
| Upgrade.Host.RecoverUnchanged | infra/verification/i044a-v2/install.py:405-415 | success means the untouched predecessor and its unit are in place and running |
| Upgrade.Host.RestorePredecessor | infra/verification/i044a-v2/install.py:418-432 | success means the predecessor is back from the backup and running, with its unit in place and read by the service manager; a predecessor exists at every moment |
| Upgrade.Host.Forward | infra/verification/i044a-v2/install.py:468-486 | says how far the forward steps came, and what is in place then |
| Upgrade.Host.Transition | infra/verification/i044a-v2/install.py:464-497 | whatever fails, a predecessor is at TARGET or the backup in every state; success means the candidate, upgrade_failed the running predecessor, each with its unit in place and read by the service manager, and anything else is service_rollback_failed |
| DecimalNotation.NumberOfDigits | apps/api/src/novalton_api/infrastructure/verification_sandbox.py:165 | the digits of a number read back as the number, wherever they are written: lengths in the stream, indices in paths, sizes of packages |
| Framing.ValueOfDecimal | apps/api/src/novalton_api/infrastructure/verification_sandbox.py:165 | a length written in ASCII reads back as the length |
| Framing.ParseFrame | apps/api/src/novalton_api/infrastructure/verification_sandbox.py:152-168 | the stream parses back to exactly the records it was made from |
| Framing.FrameInjective | apps/api/src/novalton_api/infrastructure/verification_sandbox.py:152-168 | different lists of files are different hash inputs |
| SortedFiles.SortIgnoresOrder | apps/api/src/novalton_api/infrastructure/verification_sandbox.py:149 | sorting files with distinct paths gives one list, however they were collected |
| SortedFiles.AscendingIsUnique | infra/verification/i044a-v2/worker/i044a.py:252-255 | a set of files has one strictly ascending list |
| SnapshotTrees.WalkVisitsTheSame | apps/api/src/novalton_api/infrastructure/verification_sandbox.py:114-148 | the top-down walk and the depth-first copy visit the same files |
| SnapshotTrees.FilesAreDistinct | infra/verification/i044a-v2/worker/i044a.py:197-221 | no two admitted files have the same joined path |
| AdmittedFiles.FilesAreAdmitted | infra/verification/i044a-v2/worker/i044a.py:197-247 | a file is listed under a path if and only if the path leads to it and no name on the way is excluded |
| SnapshotTrees.PathsAreEncodable | infra/verification/i044a-v2/worker/i044a.py:200 | if every listed name is UTF-8 then so is every path |
| SnapshotTrees.TraversalsAgree | infra/verification/i044a-v2/worker/i044a.py:197-264 | with an admitted entry the worker stages exactly what the adapter digests and whose listed names are all UTF-8; whenever it stages, the digests are equal |
| SnapshotTrees.EmptySource | infra/verification/i044a-v2/worker/i044a.py:295-296 | with nothing admitted the worker refuses and the adapter digests the empty stream |
| SnapshotTrees.ExcludedNameDisagrees | infra/verification/i044a-v2/worker/i044a.py:200-205 | an excluded file with an undecodable name makes the worker refuse what the adapter digests |
| SnapshotTrees.DigestDeterminesFiles | apps/api/src/novalton_api/infrastructure/verification_sandbox.py:152-173 | equal digests mean equal admitted paths and contents |
| SnapshotWalks.SourceWalk.CountDirectories | apps/api/src/novalton_api/infrastructure/verification_sandbox.py:117-127 | succeeds exactly without directory links and within the entry bound, and counts the kept directories |
| SnapshotWalks.SourceWalk.TakeFiles | apps/api/src/novalton_api/infrastructure/verification_sandbox.py:129-148 | succeeds exactly on regular files of admissible size within both bounds, and collects them |
| SnapshotWalks.SourceWalk.Visit | apps/api/src/novalton_api/infrastructure/verification_sandbox.py:110-149 | the walk succeeds exactly on clean trees within the bounds and collects the files below |
| SnapshotWalks.DigestFiles | apps/api/src/novalton_api/infrastructure/verification_sandbox.py:152-168 | hashes exactly the framed files, refusing one that is too large |
| SnapshotWalks.SourceDigest | apps/api/src/novalton_api/infrastructure/verification_sandbox.py:171-173 | the adapter answers its verdict on every tree |
| SnapshotWalks.SnapshotDigest | infra/verification/i044a-v2/worker/i044a.py:250-264 | hashes the framed files in path order |
| SnapshotWalks.SnapshotStaging.CopyFile | infra/verification/i044a-v2/worker/i044a.py:222-245 | copies the file whole within its budget, or leaves nothing of it |
| SnapshotWalks.SnapshotStaging.CopyDirectory | infra/verification/i044a-v2/worker/i044a.py:197-247 | succeeds exactly on clean trees with encodable names within the shared budget, and has then copied exactly the admitted files |
| SnapshotWalks.SnapshotStaging.Stage | infra/verification/i044a-v2/worker/i044a.py:281-304 | the worker answers its verdict, and a refusal leaves nothing staged |
| SnapshotWalks.CountedInParts | apps/api/src/novalton_api/infrastructure/verification_sandbox.py:125-145 | counting directory by directory gives the totals of the whole tree |
| WorkerProcess.VerificationWorker.Request | infra/verification/i044a-v2/worker/i044a.py:328-397 | keeps the invariant of the worker whatever is asked, as the transition function says; a block stays, and what is accepted finds the worker idle |
| WorkerProcess.VerificationWorker.PrepareRun | infra/verification/i044a-v2/worker/i044a.py:345-363 | only an idle, unblocked worker stages a snapshot and issues a capability |
| WorkerProcess.VerificationWorker.StartRun | infra/verification/i044a-v2/worker/i044a.py:364-385 | only the waiting capability, presented by its peer, starts a run, and it is used up |
| WorkerProcess.VerificationWorker.Finish | infra/verification/i044a-v2/worker/i044a.py:546-556 | completion keeps the invariant and moves the worker as the transition function says; the plain assignment clears no block |
| WorkerProcess.VerificationWorker.constructor | infra/verification/i044b-v2/worker/worker.py:207-227 | a new process reconciles what its predecessor left on disk and satisfies the invariant |
| WorkerRuns.StepInv | infra/verification/i044a-v2/worker/i044a.py:328-397 | every request and completion keeps the invariant |
| WorkerRuns.StepKeepsBlock | infra/verification/i044a-v2/worker/i044a.py:547-556 | a block is never cleared, although completion assigns it |
| WorkerRuns.AcceptedWhenIdle | infra/verification/i044a-v2/worker/i044a.py:364-385 | an accepted verify finds no running job and no block, and starts the run of the waiting capability before it expires |
| WorkerRuns.EveryRunIsSafe | infra/verification/i044a-v2/worker/i044a.py:310-397 | over every interleaving pending and active exclude each other and a block, a block stays, and each capability starts at most one run, for its peer, before expiry |
| WorkerRuns.CrashIsReconciled | infra/verification/i044b-v2/worker/worker.py:207-227 | after a crash the next process answers for the interrupted run as reconciled and honours no old capability |
| WorkerRuns.FinishedIsReported | infra/verification/i044a-v2/worker/i044a.py:546-556 | a finished run is reported, also by a later process |
| WorkerRuns.ExpiryIsEnforced | infra/verification/i044a-v2/worker/i044a.py:328-333 | an expired capability is gone with the next request and starts no run |
| WorkerRuns.HealthIsAnswered | infra/verification/i044a-v2/worker/i044a.py:334-344 | health tells of a block and of a waiting capability or running probe, and changes nothing |
| WorkerRuns.PreparedCanBeVerified | infra/verification/i044a-v2/worker/i044a.py:345-385 | a free worker issues a capability that its holder, and nobody else, can use to start the run until it expires two seconds later |
| WorkerRuns.PrepareIsRefused | infra/verification/i044a-v2/worker/i044a.py:345-347 | a worker that is not free refuses, as unavailable or busy |
| WorkerRuns.FailedStagingChangesNothing | infra/verification/i044a-v2/worker/i044a.py:348-349 | failed staging leaves the worker as it was |
| WorkerRuns.CancelReachesTheJob | infra/verification/i044a-v2/worker/i044a.py:390-394 | cancel and cleanup set the flag of the running job and nothing else, and result does not |
| WorkerRuns.OtherRunsAreReported | infra/verification/i044a-v2/worker/i044a.py:390-397 | about another run there is the last report or nothing, and the running job is left alone |
| WorkerRuns.EndedFreesOrBlocks | infra/verification/i044a-v2/worker/i044a.py:546-556 | the end of a probe frees the worker if and only if everything was cleared up and recorded |
| WorkerRuns.RestartReports | infra/verification/i044b-v2/worker/worker.py:207-227 | a new process is idle, reports what its predecessor left, and is blocked exactly if it could not clear up |
| PackageSize.SizeIsLeast | apps/api/src/novalton_api/modules/memories/context_packages.py:120-129 | the third rewrite is a fixed point of base plus digits, and the least one |
| PackageSize.SizeMonotone | apps/api/src/novalton_api/modules/memories/context_packages.py:120-129 | a smaller base has no larger size |
| PackageSize.TwoSizes | apps/api/src/novalton_api/modules/memories/context_packages.py:120-129 | fixed points are not unique |
| PackageSize.SerializedBytes | apps/api/src/novalton_api/modules/memories/context_packages.py:120-129 | four rounds from 0 always converge, to the least size |
| ContextPackages.Assemble | apps/api/src/novalton_api/modules/memories/context_packages.py:202-267 | returns the greedy selection with its size; fails on scope exactly for a foreign result, and on encoding exactly if nothing was kept and the empty package is too large |
| ContextPackages.Select | apps/api/src/novalton_api/modules/memories/context_packages.py:224-267 | the loop over groups and counters computes the greedy selection |
| ContextPackages.GreedyWithinBounds | apps/api/src/novalton_api/modules/memories/context_packages.py:224-252 | the selection meets the item, reference and byte bounds |
| ContextPackages.GreedySelects | apps/api/src/novalton_api/modules/memories/context_packages.py:224-252 | the kept items are results in retrieval order |
| ContextSelection.GreedyIsGreedy | apps/api/src/novalton_api/modules/memories/context_packages.py:224-252 | a result is left out only if no room is left for it when its turn comes, and every kept item has as many references as both limits allow |
| ContextSelection.FollowerIsUnique | apps/api/src/novalton_api/modules/memories/context_packages.py:160-170 | the limits decide how many references an item keeps |
| ContextSelection.GroupedByKind | apps/api/src/novalton_api/modules/memories/context_packages.py:232-237 | disputed items are in their own group and all others in that of their kind |
| ContextSelection.ReferencesAddUp | apps/api/src/novalton_api/modules/memories/context_packages.py:160-186 | kept and omitted references are all references of the kept items |
| ContextSelection.ListIsSum | apps/api/src/novalton_api/modules/memories/context_packages.py:120-129 | a list weighs its elements and the commas between them |
| ContextPackages.AssembledIsWellFormed | apps/api/src/novalton_api/modules/memories/context_packages.py:254-267 | an assembled package is within its bound, accounts for every result, and sums the omitted references of the kept items |
| ContextPackages.FilteredIsSmaller | apps/api/src/novalton_api/modules/memories/context_packages.py:287-295 | what is removed outweighs the growth of the counters |
| ContextPackages.FilterForTarget | apps/api/src/novalton_api/modules/memories/context_packages.py:270-299 | filtering never raises and leaves a package that is within the bound and accounts for the same results |
| ContextSelection.FilteredAccounts | apps/api/src/novalton_api/modules/memories/context_packages.py:275-295 | exactly the items that may go to the target are left, in every group, and the others move from one counter to two |
| ContextPackages.DisclosedIsSubsequence | apps/api/src/novalton_api/modules/memories/context_packages.py:278-286 | a filtered group is exactly the eligible items, in order |
| ContractPaths.Tokenize | apps/api/src/novalton_api/modules/agents/contract_execution.py:303-315 | the loop over matches computes the tokens of the path, or raises where it does |
| ContractPaths.TokensOfWritten | apps/api/src/novalton_api/modules/agents/contract_execution.py:303-315 | every list of tokens with proper names has a path that is read back as that list |
| PathSpelling.TokensExactly | apps/api/src/novalton_api/modules/agents/contract_execution.py:303-315 | a path is read as some tokens if and only if it spells them out, one after the other |
| ContractPaths.ValuesAtPath | apps/api/src/novalton_api/modules/agents/contract_execution.py:318-332 | the nested loops compute the values that the tokens select |
| PathInstances.ValuesAreReached | apps/api/src/novalton_api/modules/agents/contract_execution.py:318-332 | the values at a path are those that its step for step instances lead to, a wildcard standing for every position of a list, each once and in payload order |
| PathInstances.ValueIsReached | apps/api/src/novalton_api/modules/agents/contract_execution.py:318-332 | a value is at a path if and only if some instance of the path leads to it |
| ContractSchema.SchemaNodesAtPath | apps/api/src/novalton_api/modules/agents/contract_execution.py:382-398 | finds the one node at the path or none |
| ContractSchema.NodeAtIsTrail | apps/api/src/novalton_api/modules/agents/contract_execution.py:382-406 | a path is represented by a node if and only if a trail of properties, items and references leads there |
| ContractSchema.Apply | apps/api/src/novalton_api/modules/agents/contract_execution.py:359-379 | changes the keywords of exactly the node at the path, and raises exactly if there is none |
| ContractSchema.Compile | apps/api/src/novalton_api/modules/agents/contract_execution.py:203-217 | every node ends with the keywords the constraints leave it in order; raises exactly if a path is not representable |
| ContractSchema.SurvivorIsWritten | apps/api/src/novalton_api/modules/agents/contract_execution.py:365-379 | a constraint that no later one overwrites is still in the compiled schema |
| ContractSoundness.ValuesAreValid | apps/api/src/novalton_api/modules/agents/contract_execution.py:382-406 | whatever a valid payload has at a path is valid for the node found there, through definitions, wildcards and indices |
| ContractSoundness.GuaranteesIsExact | apps/api/src/novalton_api/modules/agents/contract_execution.py:335-379 | a node of a type and with keywords that some value meets accepts only values that pass a constraint if and only if type and keywords imply it |
| ContractSoundness.CompiledConstraintIsExact | apps/api/src/novalton_api/modules/agents/contract_execution.py:335-406 | the compiled schema enforces a constraint on all valid payloads if and only if the keywords its node is left with imply it |
| ContractSoundness.LostConstraintFails | apps/api/src/novalton_api/modules/agents/contract_execution.py:365-379 | if they do not, any valid payload with a value at the path can be changed there into a valid one that fails the local check |
| ContractSoundness.SurvivorIsKept | apps/api/src/novalton_api/modules/agents/contract_execution.py:365-379 | a constraint whose keywords no later one sets is enforced |
| ContractSoundness.StricterKeeps | apps/api/src/novalton_api/modules/agents/contract_execution.py:365-379 | a constraint is enforced if one for the same node that nobody overwrites implies it, also when that one overwrites it |
| ContractSoundness.OverwrittenIsImplied | apps/api/src/novalton_api/modules/agents/contract_execution.py:365-379 | an exact number of items overwrites and implies a smaller or equal minimum |
| ContractSoundness.CompiledConstraintHolds | apps/api/src/novalton_api/modules/agents/contract_execution.py:335-379 | a constraint whose node ends with limits that imply it is met by a payload valid for the compiled schema if and only if the payload has a value at its path |
| ContractSoundness.ValidPayloadsPass | apps/api/src/novalton_api/modules/agents/contract_execution.py:140-156 | if no constraint overwrites another, valid payloads with values at the paths have no local failures |
| ContractSoundness.OverwrittenConstraint | apps/api/src/novalton_api/modules/agents/contract_execution.py:365-379 | two compatible constraints on one array, the later one laxer, and a payload that the compiled schema accepts and that fails the first locally |
| ContractSoundness.CheckConstraint | apps/api/src/novalton_api/modules/agents/contract_execution.py:147-155 | a constraint, also one with a local validator, passes exactly if there is a value and every value passes |
| ContractSoundness.ValidateResultShape | apps/api/src/novalton_api/modules/agents/contract_execution.py:140-156 | lists the failing constraints among the first sixteen, in order |
| ContractSoundness.NoFailures | apps/api/src/novalton_api/modules/agents/contract_execution.py:140-156 | there are no failures exactly if every constraint accepts |
| ContractSoundness.AcceptsIfAllPass | apps/api/src/novalton_api/modules/agents/contract_execution.py:147-155 | a constraint is met if and only if its path leads to a value and every value it leads to passes |
| ContractSoundness.OneElementFails | apps/api/src/novalton_api/modules/agents/contract_execution.py:147-155 | one element under a wildcard that does not pass is enough for the constraint to be reported |
| ContractSoundness.FailuresAre | apps/api/src/novalton_api/modules/agents/contract_execution.py:140-156 | the failures name exactly the constraints that are not met, in their order |
| ContractSoundness.WritesExactly | apps/api/src/novalton_api/modules/agents/contract_execution.py:365-379 | writing a constraint asks of a value exactly what the constraint asks, besides what the other keywords ask |
| ContractSoundness.CompilingAdmits | apps/api/src/novalton_api/modules/agents/contract_execution.py:203-217 | the compiled keywords of a node reject no value that its own keywords allow and its constraints pass |
| AgentRuns.AgentRun.Transition | apps/api/src/novalton_api/modules/agents/service.py:300-331 | a conditional update: applied exactly from the expected status, with the times of start and completion, always into a legal lifecycle shape |
| AgentRuns.AgentRun.Cancel | apps/api/src/novalton_api/modules/agents/service.py:418-438 | cancels exactly from CREATED or RUNNING |
| AgentRuns.RecoveryIsLarger | apps/api/src/novalton_api/modules/agents/output_budget.py:24-42 | a recovery budget is never smaller, and larger whenever the bounds leave room |
| AgentRuns.BudgetIsBounded | apps/api/src/novalton_api/modules/agents/output_budget.py:24-42 | a budget stays within the ceiling and the known maximum, and falls short of the expectation only because of them |
| AgentRuns.BudgetIsExact | apps/api/src/novalton_api/modules/agents/output_budget.py:24-42 | the first budget is the expectation and half of it rounded up, the retry has half as much again, each cut to the bounds and at least 1 |
| Execution.AgentExecution.Prepare | apps/api/src/novalton_api/modules/agents/execution.py:788-1033 | goes on to the first call exactly if nothing refuses it, with one open model run; else the run is FAILED with the code of the first refusal and no model run is open |
| Execution.AgentExecution.Admit | apps/api/src/novalton_api/modules/agents/execution.py:801-907 | refuses for tools, memory or routing exactly as stated, with the code of the first reason, before a model run is opened |
| Execution.AgentExecution.LookUp | apps/api/src/novalton_api/modules/agents/execution.py:948-1178 | goes on exactly if linking, lookup and strategy allow it; else the model run and the agent run fail together |
| Execution.AgentExecution.FirstCall | apps/api/src/novalton_api/modules/agents/execution.py:986-1248 | whatever the provider answers, the first call never escapes: it leaves an accounted generation, or a FAILED or CANCELLED run with its model run closed and the code of the error |
| Execution.AgentExecution.RetryTruncated | apps/api/src/novalton_api/modules/agents/execution.py:1271-1394 | one retry with the recovery budget, whose failure keeps the truncated generation; only a bare cancellation leaves it open |
| Execution.AgentExecution.RepairResult | apps/api/src/novalton_api/modules/agents/execution.py:1455-1617 | one repair, accounted as the protocol says; only a bare cancellation leaves it open |
| Execution.AgentExecution.Judge | apps/api/src/novalton_api/modules/agents/execution.py:1395-1632 | ends as the protocol says: the result is acceptable and untruncated, or comes from the one repair, which needs no permitted tools and no retry before it |
| Execution.AgentExecution.ContinueWithEvidence | apps/api/src/novalton_api/modules/agents/execution.py:515-754 | at most one further call, none if shape constraints were passed; ends as the protocol says, settled unless the call escapes |
| Execution.AgentExecution.AcceptContinuation | apps/api/src/novalton_api/modules/agents/execution.py:643-753 | what the continuation generated is accounted and judged, and ends the run unless its usage figures are refused, which escapes |
| Execution.AgentExecution.Follow | apps/api/src/novalton_api/modules/agents/execution.py:1634-1730 | an acceptable result ends the run, waits for approval, or is continued once |
| Execution.AgentExecution.Conclude | apps/api/src/novalton_api/modules/agents/execution.py:112-124 | the result status maps to the run status and failure code |
| Execution.AgentExecution.Execute | apps/api/src/novalton_api/modules/agents/execution.py:757-1755 | for every situation and sequence of provider answers: the calls, the accounting of each, the status, the failure code and the way execute ends are those of the protocol; the run succeeds if and only if a generation concludes it as completed or partial, any result status ends it as it should, every model run says how its call ended, and the run stays RUNNING with a model run open on exactly the stated situations and answers |
| Execution.AgentExecution.CarryOut | apps/api/src/novalton_api/modules/agents/execution.py:757-1755 | the body of execute, call by call |
| ExecutionProtocol.ProtocolEndsWell | apps/api/src/novalton_api/modules/agents/execution.py:757-1755 | at most three calls in a permitted sequence with their budgets, each answered in turn; the run ends terminal or waiting, failed exactly with a code, except exactly when the last call escaped |
| ExecutionOutcomes.FirstRefusal | apps/api/src/novalton_api/modules/agents/execution.py:801-1037 | the first of eleven checks that fails ends the run with its code and without a call |
| ExecutionOutcomes.CallsIfUnrefused | apps/api/src/novalton_api/modules/agents/execution.py:801-1037 | there is a call if and only if all checks pass |
| ExecutionOutcomes.FirstAnswerEnds | apps/api/src/novalton_api/modules/agents/execution.py:1100-1178 | a cancellation, each kind of provider error and any other exception of the first call end the run with their code |
| ExecutionOutcomes.FirstGenerationRefused | apps/api/src/novalton_api/modules/agents/execution.py:1180-1248 | a generation of another model or upstream, or with unacceptable usage figures, ends the run with its code |
| ExecutionOutcomes.RetryDecides | apps/api/src/novalton_api/modules/agents/execution.py:1271-1415 | a truncated generation is retried once; what the retry brings is judged, and if it brings nothing the truncated one fails |
| ExecutionOutcomes.RepairDecides | apps/api/src/novalton_api/modules/agents/execution.py:1413-1632 | a generation that is no JSON fails, one that breaks the contract is repaired once unless there are tools, and the repair must be acceptable |
| ExecutionOutcomes.ResultEnds | apps/api/src/novalton_api/modules/agents/execution.py:1634-1730 | a result without proposals ends the run by its status; one proposal waits for approval, fails with the code of the gateway, or goes on; others fail |
| ExecutionOutcomes.ContinuationEnds | apps/api/src/novalton_api/modules/agents/execution.py:640-754 | each answer to a continuation ends the run, with its code or by the status of its result |
| ExecutionOutcomes.ConclusionEnds | apps/api/src/novalton_api/modules/agents/execution.py:112-124 | completed and partial results succeed, cancelled ones cancel, and the others fail with the code of their status |
| ExecutionOutcomes.SucceedsExactly | apps/api/src/novalton_api/modules/agents/execution.py:757-1755 | a run succeeds if and only if a generation concludes it as completed or partial |
| ExecutionOutcomes.CallBudgets | apps/api/src/novalton_api/modules/agents/execution.py:998-1278 | every call has the first budget and a truncation retry the larger one |
| ExecutionOutcomes.RecordsAccount | apps/api/src/novalton_api/modules/agents/execution.py:986-1617 | a model run is done, withdrawn, open or failed according to how its call ended |
| Execution.RunsOutAsConcluded | apps/api/src/novalton_api/modules/agents/execution.py:1712-1755 | the run ends as the result status of its concluding generation asks |
| ExecutionProtocol.RetryIsNotSmaller | apps/api/src/novalton_api/modules/agents/execution.py:1273-1278 | a truncation retry never has a smaller budget than the first call, and other calls have the same |
| ExecutionProtocol.EscapesExactly | apps/api/src/novalton_api/modules/agents/execution.py:757-1755 | stated on the situation and the answers: the run is abandoned if and only if the retry of a truncated generation or the repair of an invalid one is cancelled bare, or an unconstrained continuation meets what its handlers do not expect |
| Execution.OpenExactlyIfAbandoned | apps/api/src/novalton_api/modules/agents/execution.py:757-1755 | the run stays RUNNING and a model run open on exactly those situations and answers, and is terminal or waiting on all others |
| ExecutionProtocol.CancelledRetryEscapes | apps/api/src/novalton_api/modules/agents/execution.py:1354-1380 | whenever calls are made, a truncated generation and a bare cancellation of its retry escape |
| ExecutionProtocol.CancelledRepairEscapes | apps/api/src/novalton_api/modules/agents/execution.py:1525-1567 | so do an invalid result and a bare cancellation of its repair |
| Execution.CancelledDuringRetry | apps/api/src/novalton_api/modules/agents/execution.py:1354-1380 | the execution with these two answers leaves the agent run RUNNING and its second model run open |
| ExecutionProtocol.ContinuesExactly | apps/api/src/novalton_api/modules/agents/execution.py:515-579 | a call is a continuation if and only if a tool round with evidence was asked for, the caller passed no shape constraints and the provider is found again; it is the last call then |
| ExecutionProtocol.ToolRoundEnds | apps/api/src/novalton_api/modules/agents/execution.py:515-754 | every tool round with evidence, also after a retry, ends as its continuation does, or without one because of shape constraints or a lost provider |
| ExecutionProtocol.AbandonedRuns | apps/api/src/novalton_api/modules/agents/execution.py:515-754 | concrete situations and answers for each way of being abandoned, and for a tool round that shape constraints fail |
| GitChangesets.Repository.CleanPath | apps/api/src/novalton_api/modules/git_changesets/local.py:211-221 | the head entry of a path is returned only if the index holds that very entry |
| GitChangesets.Repository.ReadWorktree | apps/api/src/novalton_api/modules/git_changesets/local.py:181-193 | returns the contents of a readable file of the expected mode, and refuses others |
| GitChangesets.Repository.RecheckPath | apps/api/src/novalton_api/modules/git_changesets/local.py:350-369 | a path is accepted again only if tree, index and working file still agree with what was prepared |
| GitChangesets.Repository.StoreBlobs | apps/api/src/novalton_api/modules/git_changesets/local.py:349-369 | every path is checked again before its blob is stored, and the result is the prepared replacements |
| GitChangesets.Repository.BuildTree | apps/api/src/novalton_api/modules/git_changesets/local.py:370 | the rewrite inside apply returns the predicted tree, on a store that may have grown since |
| RemoteRepository.Remote.BaseRef | apps/api/src/novalton_api/modules/github_publications/http_adapter.py:155-164 | a read that answers is the ref, which must exist |
| RemoteRepository.Remote.BranchRef | apps/api/src/novalton_api/modules/github_publications/http_adapter.py:166-176 | a read that answers is the ref or its absence |
| RemoteRepository.Remote.FindPullRequest | apps/api/src/novalton_api/modules/github_publications/http_adapter.py:342-355 | a read that answers is the first pull request for the pair or its absence |
| RemoteRepository.Remote.CreateBlob | apps/api/src/novalton_api/modules/github_publications/http_adapter.py:190-199 | stores the blob under its own id or nothing, with or without an answer |
| RemoteRepository.Remote.CreateTree | apps/api/src/novalton_api/modules/github_publications/http_adapter.py:227-238 | stores the tree under its own id or nothing, with or without an answer, and needs its base and blobs |
| RemoteRepository.Remote.CreateCommit | apps/api/src/novalton_api/modules/github_publications/http_adapter.py:308-340 | stores the commit under its own id or nothing, with or without an answer, and needs its tree and parents |
| Publication.UploadBlob | apps/api/src/novalton_api/modules/github_publications/service.py:287-303 | afterwards the blob is on the remote, created only if a retry did not find it |
| Publication.CheckBase | apps/api/src/novalton_api/modules/github_publications/service.py:267-272 | goes on exactly if the base is, at that moment, where it was prepared, and is STALE if it has moved; also before the branch is created |
| Publication.PublicationAction.constructor | apps/api/src/novalton_api/modules/github_publications/service.py:160-189 | a publication starts waiting for approval |
| TaskOrder.CountTask | apps/api/src/novalton_api/modules/developer_manager/contracts.py:139-146 | counts one task, or reports its first self or unknown dependency |
| TaskOrder.PopLeast | apps/api/src/novalton_api/modules/developer_manager/contracts.py:151 | the popped key is the least of the heap |
| TaskOrder.Release | apps/api/src/novalton_api/modules/developer_manager/contracts.py:153-156 | exactly the dependents whose last dependency is done become ready |
| SnapshotWalks.SourceWalk.Descend | apps/api/src/novalton_api/infrastructure/verification_sandbox.py:114-128 | the walks below succeed exactly if each does within what the bounds leave |
| SnapshotWalks.SnapshotStaging.CopyChild | infra/verification/i044a-v2/worker/i044a.py:201-247 | one name is skipped, entered, copied or refused, within the shared budget |
| WorkerProcess.VerificationWorker.DiscardPending | infra/verification/i044a-v2/worker/i044a.py:323-326 | the waiting snapshot is destroyed and failing to do so blocks the worker |
| WorkerProcess.VerificationWorker.AboutRun | infra/verification/i044a-v2/worker/i044a.py:390-397 | answers for the running and the last run only |
| ContextPackages.FilterGroup | apps/api/src/novalton_api/modules/memories/context_packages.py:278-286 | keeps exactly the eligible items of a group, in order, and counts the others |
| ContextPackages.FilterGroups | apps/api/src/novalton_api/modules/memories/context_packages.py:275-287 | filters every group and counts everything removed |

## Left out

- Git configuration and repository checks of `_repo`, the index file format, dulwich internals, diffs and terminal previews: plumbing around the changeset.
- GitChangesets.Repository.Apply: how an attempt without faults ends is not stated for a store that has lost objects which preparation saw.
- GitChangesets.Repository.Prepare: the diff preview and its size bound (`local.py:251-257`) are not modelled; exceeding it is one of the failures that only calm conditions exclude.
- Path strings: git paths are sequences of names; joining, splitting and decoding them is not modelled.
- The order in which `apply` and `_write_index_entries` visit paths: contracts hold for any order.
- Concurrent `publish` calls: the row lock is released at `service.py:286`; the single-branch and single-request results are for the creations of sequential attempts, with others acting between any two remote calls.
- Paging of pull requests and the validation of responses other than commits.
- Deletion of the publication's branch by others: the count of created branches excludes it; anything else others may do, at any time.
- Publication.PublicationAction.Publish: that stops are explained by the remote and that nothing but additions happens there is stated for attempts during which nobody else acts; and favourable circumstances assume that the local objects can be read, which takes a repair of what is described above.
- `prepare` of a publication: the plan is given, as a successful `prepare` fixed it.
- Workflow lookup, QA verdicts and policy evaluation: oracles with the results the callers branch on.
- DecisionRoutes.Approve: how a prepared tool call is resumed after the decision (`mutation_resume`) is not modelled; it may succeed or fail and touches none of the records here.
- DecisionRoutes.Reject: how a prepared tool call is terminated after the decision is not modelled.
- DecisionRoutes.Serve: the same, for requests that govern a tool call.
- The first half of `main` in `install.py` (trust checks, staging of the bundle) and file ownership: the transition starts with a verified candidate.
- `os.walk` on unreadable directories, changes to a tree while it is read, permissions of the staged copy: trees are fixed values.
- Limits of the interpreter and the platform: `_copy_directory` recurses once per directory under Python's recursion limit while `os.walk` does not, and paths have a greatest length, so a chain of about a thousand nested directories can be refused by the worker alone.
- SnapshotWalks.SourceWalk.Visit: which of several faults is reported depends on Python's name order and is not modelled, only whether there is one.
- Namespaces, the probe itself, sockets and descriptor passing: only their results reach the worker model.
- WorkerRuns.EveryRunIsSafe: assumes that a random capability is never drawn twice.
- JSON text: packages are modelled by the sizes of their parts; providers and texts do not matter to the bounds.
- `_item`'s truncation of single fields and the disclosure policy itself: an item has a size and an eligibility.
- JSON Schema keywords other than type, reference, properties, items and the three that constraints set: ignoring them only strengthens the soundness results, and the exactness results are about schemas without them.
- ContractSoundness.CompiledConstraintHolds: asks that `*` and indices are used on nodes without prefix items, that `*` is used on array-typed nodes, and that counted nodes are array-typed.
- ContractSoundness.CompilingAdmits: is about one node and value; a node that several paths share is constrained on all of them.
- ContractSoundness.CompiledConstraintIsExact: asks in addition that a node with a `$ref` says nothing else, as in generated schemas, and that some element is valid where the constrained array describes its elements; the converse says nothing of semantic constraints, which no keyword expresses.
- The rules of the local validators: each is a given function of the value.
- ContractPaths.Tokenize: digits are ASCII digits; the pattern of the source also admits other Unicode digits.
- Concurrent changes of an agent run or a model run by another request during an execution.
- Failures of the accounting, of request construction and of the tool gateway other than a denied tool.
- AgentRuns.BudgetIsBounded: `ceil(n * 1.5)` is exact integer arithmetic, as it is below 2 to the power of 52.
- Database sessions, HTTP wiring, logging, settings, the web application and operator scripts: plumbing.
