/** `publish` of github_publications/service.py: retryable steps over a remote whose calls may fail
    with or without having taken effect. */
module Publication {
  import opened Faults
  import opened RemoteRepository
  import opened Options

  datatype Status = PendingApproval | Publishing | Published | Failed | Stale | Conflict | Rejected

  datatype Object = Object(path: string, mode: nat, content: string, sha: Sha)

  /** The prepared, immutable part of a publication. */
  datatype Plan = Plan(
    base: Ref, preparedBase: Sha, branch: Ref, parent: Sha, tree: Sha, commit: Sha, message: string, author: string,
    committer: string, timestamp: int, title: string, body: string, objects: seq<Object>)

  function Entries(p: Plan): (r: seq<Entry>)
    ensures |r| == |p.objects|
    ensures forall i :: 0 <= i < |r| ==>
      r[i].path == p.objects[i].path && r[i].mode == p.objects[i].mode && r[i].sha == p.objects[i].sha
  {
    seq(|p.objects|, i requires 0 <= i < |p.objects| => Entry(p.objects[i].path, p.objects[i].mode, p.objects[i].sha))
  }

  /** The commit the remote is asked to create. */
  function Wanted(p: Plan): CommitData {
    var stamp := Stamp(p.timestamp, 0);
    CommitData(p.tree, [p.parent], p.message, Split(p.author), stamp, Split(p.committer), stamp)
  }

  predicate CommitMatches(c: RemoteCommit, p: Plan) {
    && c.sha == p.commit && c.data.tree == p.tree && c.data.parents == [p.parent] && c.data.message == p.message
    && Show(c.data.author) == p.author && Show(c.data.committer) == p.committer
    && c.data.authored == Stamp(p.timestamp, 0) && c.data.committed == Stamp(p.timestamp, 0)
  }

  predicate PullMatches(pr: PullRequest, p: Plan) {
    && pr.headSha == p.commit && pr.headRef == p.branch && pr.baseRef == p.base
    && pr.title == p.title && pr.body == p.body
  }

  function OurPull(s: RemoteState, p: Plan): Option<PullRequest> {
    FindPull(s.prs, p.branch, p.base)
  }

  // ---------------------------------------------------------------- what a publication must never do

  ghost predicate Extends<K, V>(a: map<K, V>, b: map<K, V>) {
    forall k :: k in a ==> k in b && b[k] == a[k]
  }

  /** Only additions: objects, the one branch at the one commit, and one pull request if there was none. */
  ghost predicate Kept(p: Plan, a: RemoteState, b: RemoteState) {
    && Extends(a.blobs, b.blobs) && Extends(a.trees, b.trees) && Extends(a.commits, b.commits)
    && (b.refs == a.refs || (p.branch !in a.refs && b.refs == a.refs[p.branch := p.commit]))
    && (b.prs == a.prs || (OurPull(a, p) == None && |b.prs| == |a.prs| + 1 && b.prs[..|a.prs|] == a.prs
                           && b.prs[|a.prs|].headRef == p.branch && b.prs[|a.prs|].baseRef == p.base))
  }

  lemma KeptTwice(p: Plan, a: RemoteState, b: RemoteState, c: RemoteState)
    requires Kept(p, a, b) && Kept(p, b, c)
    ensures Kept(p, a, c)
  {
    if b.prs != a.prs {
      var pr := b.prs[|a.prs|];
      assert b.prs == a.prs + [pr];
      FindPullAppended(a.prs, pr, p.branch, p.base);
    }
  }

  /** What PUBLISHED means on the remote. */
  predicate IsPublished(p: Plan, s: RemoteState) {
    && p.base in s.refs && s.refs[p.base] == p.preparedBase
    && p.branch in s.refs && s.refs[p.branch] == p.commit
    && p.tree in s.trees
    && p.commit in s.commits && s.commits[p.commit].sha == p.commit
    && (var data, stamp := s.commits[p.commit].data, Stamp(p.timestamp, 0);
        && data == CommitData(p.tree, [p.parent], p.message, data.author, stamp, data.committer, stamp)
        && Show(data.author) == p.author && Show(data.committer) == p.committer)
    && OurPull(s, p).Some?
    && (var pr := OurPull(s, p).value; pr == PullRequest(pr.number, p.commit, p.branch, p.base, p.title, p.body))
  }

  lemma MatchingIsPublished(p: Plan, s: RemoteState)
    requires p.base in s.refs && s.refs[p.base] == p.preparedBase && p.branch in s.refs && s.refs[p.branch] == p.commit
    requires p.tree in s.trees && p.commit in s.commits && CommitMatches(s.commits[p.commit], p)
    requires OurPull(s, p).Some? && PullMatches(OurPull(s, p).value, p)
    ensures IsPublished(p, s)
  {
    hide FindPull, Show;
  }

  /** Why a publication is STALE or in CONFLICT. */
  predicate Explained(p: Plan, h: Hashing, s: RemoteState, code: string) {
    match code
    case "stale_base" => p.base in s.refs && s.refs[p.base] != p.preparedBase
    case "blob_sha_mismatch" =>
      exists i :: 0 <= i < |p.objects| && var o := p.objects[i];
        h.blob(o.content) != o.sha || (o.sha in s.blobs && s.blobs[o.sha] != o.sha)
    case "parent_sha_mismatch" => p.parent in s.commits ==> s.commits[p.parent].sha != p.parent
    case "tree_sha_mismatch" =>
      || (p.tree in s.trees && s.trees[p.tree] != p.tree)
      || (p.parent in s.commits && h.tree(s.commits[p.parent].data.tree, Entries(p)) != p.tree)
    case "commit_sha_mismatch" =>
      || h.commit(Wanted(p)) != p.commit
      || (p.commit in s.commits && !CommitMatches(s.commits[p.commit], p))
    case "branch_conflict" => p.branch in s.refs && s.refs[p.branch] != p.commit
    case "pr_conflict" => OurPull(s, p).Some? && !PullMatches(OurPull(s, p).value, p)
    case _ => false
  }

  // ---------------------------------------------------------------- when a publication must succeed

  /** The base has not moved, the server hashes as git does, and nothing foreign is in the way. */
  predicate Ready(p: Plan, h: Hashing, s: RemoteState) {
    && p.branch != p.base
    && p.base in s.refs && s.refs[p.base] == p.preparedBase
    && (forall i :: 0 <= i < |p.objects| ==>
          var o := p.objects[i]; h.blob(o.content) == o.sha && (o.sha in s.blobs ==> s.blobs[o.sha] == o.sha))
    && p.parent in s.commits && s.commits[p.parent].sha == p.parent
    && ParentTree(p, s) in s.trees && h.tree(ParentTree(p, s), Entries(p)) == p.tree
    && (p.tree in s.trees ==> s.trees[p.tree] == p.tree)
    && h.commit(Wanted(p)) == p.commit && Readable(Wanted(p))
    && Show(Split(p.author)) == p.author && Show(Split(p.committer)) == p.committer
    && (p.commit in s.commits ==> s.commits[p.commit] == RemoteCommit(p.commit, Wanted(p)))
    && (p.branch in s.refs ==> s.refs[p.branch] == p.commit)
    && (OurPull(s, p).Some? ==> PullMatches(OurPull(s, p).value, p))
  }

  function ParentTree(p: Plan, s: RemoteState): Sha
    requires p.parent in s.commits
  {
    s.commits[p.parent].data.tree
  }

  /** The adapter can read the parent only if that has exactly one parent itself. */
  predicate ParentReadable(p: Plan, s: RemoteState) {
    p.parent in s.commits ==> Readable(s.commits[p.parent].data)
  }

  lemma ReadyIsNotExplained(p: Plan, h: Hashing, s: RemoteState, code: string)
    requires Ready(p, h, s)
    ensures !Explained(p, h, s, code)
  {
  }

  datatype Step = Continue | Halt(status: Status, code: string)

  /** A step that stops says why; a step never takes a publication out of reach. */
  ghost predicate StepEnds(p: Plan, h: Hashing, a: RemoteState, b: RemoteState, step: Step) {
    && Kept(p, a, b)
    && (Ready(p, h, a) ==> Ready(p, h, b))
    && (ParentReadable(p, a) && p.parent in a.commits ==> ParentReadable(p, b))
    && (step.Halt? ==> HaltIsExplained(p, h, b, step))
  }

  predicate HaltIsExplained(p: Plan, h: Hashing, s: RemoteState, halt: Step)
    requires halt.Halt?
  {
    match halt.status
    case Failed =>
      halt.code in {
        "repository_metadata_failed", "remote_base_read_failed", "blob_creation_failed", "parent_read_failed",
        "tree_read_failed", "tree_creation_failed", "commit_read_failed", "commit_creation_failed",
        "branch_read_failed", "branch_creation_uncertain", "pr_read_failed", "pr_creation_uncertain"}
    case Stale => halt.code == "stale_base" && Explained(p, h, s, halt.code)
    case Conflict => halt.code != "stale_base" && Explained(p, h, s, halt.code)
    case _ => false
  }

  lemma StepsCompose(p: Plan, h: Hashing, a: RemoteState, b: RemoteState, c: RemoteState, step: Step)
    requires StepEnds(p, h, a, b, Continue) && StepEnds(p, h, b, c, step)
    ensures StepEnds(p, h, a, c, step)
  {
    KeptTwice(p, a, b, c);
    hide Ready, Explained, HaltIsExplained;
  }

  lemma Unmoved(p: Plan, h: Hashing, s: RemoteState, step: Step)
    requires step.Halt? ==> HaltIsExplained(p, h, s, step)
    ensures StepEnds(p, h, s, s, step)
  {
  }

  // One lemma for each kind of creation.

  lemma BlobPut(p: Plan, h: Hashing, s: RemoteState, id: Sha)
    ensures StepEnds(p, h, s, s.(blobs := Put(s.blobs, id, id)), Continue)
  {
    hide Explained, HaltIsExplained, Readable, Split, Show, Entries, FindPull, CommitMatches, PullMatches;
  }

  lemma TreePut(p: Plan, h: Hashing, s: RemoteState, id: Sha)
    ensures StepEnds(p, h, s, s.(trees := Put(s.trees, id, id)), Continue)
  {
    hide Explained, HaltIsExplained, Readable, Split, Show, Entries, FindPull, CommitMatches, PullMatches;
  }

  lemma CommitPut(p: Plan, h: Hashing, s: RemoteState)
    ensures var made := RemoteCommit(h.commit(Wanted(p)), Wanted(p));
      StepEnds(p, h, s, s.(commits := Put(s.commits, made.sha, made)), Continue)
  {
    hide Explained, HaltIsExplained, Readable, Split, Show, Entries, FindPull, CommitMatches, PullMatches;
  }

  lemma BranchPut(p: Plan, h: Hashing, s: RemoteState)
    ensures StepEnds(p, h, s, s.(refs := Put(s.refs, p.branch, p.commit)), Continue)
  {
    hide Explained, HaltIsExplained, Readable, Split, Show, Entries, FindPull, CommitMatches, PullMatches;
  }

  lemma PullOpened(p: Plan, h: Hashing, s: RemoteState)
    requires OurPull(s, p) == None && p.branch in s.refs && s.refs[p.branch] == p.commit
    ensures var t := OpenPull(s, p.title, p.body, p.branch, p.base);
      StepEnds(p, h, s, t, Continue) && OurPull(t, p) == Some(t.prs[|s.prs|]) && PullMatches(t.prs[|s.prs|], p)
  {
    hide Explained, HaltIsExplained, Readable, Split, Show, Entries, CommitMatches;
    var t := OpenPull(s, p.title, p.body, p.branch, p.base);
    FindPullAppended(s.prs, t.prs[|s.prs|], p.branch, p.base);
  }

  // ---------------------------------------------------------------- what an attempt finds in its way

  /** A blob is on the remote under its id, or is named so when it is sent.  A first attempt sends every blob, a later
      one only those it does not find. */
  predicate BlobFits(p: Plan, h: Hashing, a: RemoteState, retrying: bool, i: nat)
    requires i < |p.objects|
  {
    var o := p.objects[i];
    if retrying && o.sha in a.blobs then a.blobs[o.sha] == o.sha
    else (retrying && SentBefore(p, i)) || h.blob(o.content) == o.sha
  }

  predicate SentBefore(p: Plan, i: nat)
    requires i < |p.objects|
  {
    exists k :: 0 <= k < i && p.objects[k].sha == p.objects[i].sha
  }

  predicate BlobsFit(p: Plan, h: Hashing, a: RemoteState, retrying: bool) {
    forall i :: 0 <= i < |p.objects| ==> BlobFits(p, h, a, retrying, i)
  }

  /** How the steps from the parent on end, by what is on the remote. */
  function ParentVerdict(p: Plan, a: RemoteState): (step: Step)
    ensures step.Continue? ==> p.parent in a.commits
  {
    if !ParentReadable(p, a) then Halt(Failed, "parent_read_failed")
    else if p.parent !in a.commits || a.commits[p.parent].sha != p.parent then Halt(Conflict, "parent_sha_mismatch")
    else Continue
  }

  function TreeVerdict(p: Plan, h: Hashing, a: RemoteState): Step
    requires p.parent in a.commits
  {
    if p.tree in a.trees then
      if a.trees[p.tree] == p.tree then Continue else Halt(Conflict, "tree_sha_mismatch")
    else if ParentTree(p, a) !in a.trees then Halt(Failed, "tree_creation_failed")
    else if h.tree(ParentTree(p, a), Entries(p)) == p.tree then Continue
    else Halt(Conflict, "tree_sha_mismatch")
  }

  function CommitVerdict(p: Plan, h: Hashing, a: RemoteState): Step {
    var commit := if p.commit in a.commits then a.commits[p.commit] else RemoteCommit(h.commit(Wanted(p)), Wanted(p));
    if !Readable(commit.data) then
      Halt(Failed, if p.commit in a.commits then "commit_read_failed" else "commit_creation_failed")
    else if CommitMatches(commit, p) then Continue
    else Halt(Conflict, "commit_sha_mismatch")
  }

  predicate BaseMoved(p: Plan, a: RemoteState) {
    p.base in a.refs && a.refs[p.base] != p.preparedBase
  }

  function BranchVerdict(p: Plan, a: RemoteState): Step {
    if p.branch in a.refs && a.refs[p.branch] != p.commit then Halt(Conflict, "branch_conflict") else Continue
  }

  function PullVerdict(p: Plan, a: RemoteState): Step {
    if OurPull(a, p).Some? && !PullMatches(OurPull(a, p).value, p) then Halt(Conflict, "pr_conflict") else Continue
  }

  /** How an attempt without faults ends, by what is on the remote when it starts: the first thing in its way. */
  function Verdict(p: Plan, h: Hashing, a: RemoteState, retrying: bool): Step {
    if p.base !in a.refs then Halt(Failed, "remote_base_read_failed")
    else if a.refs[p.base] != p.preparedBase then Halt(Stale, "stale_base")
    else if !BlobsFit(p, h, a, retrying) then Halt(Conflict, "blob_sha_mismatch")
    else if ParentVerdict(p, a).Halt? then ParentVerdict(p, a)
    else if TreeVerdict(p, h, a).Halt? then TreeVerdict(p, h, a)
    else if CommitVerdict(p, h, a).Halt? then CommitVerdict(p, h, a)
    else if BranchVerdict(p, a).Halt? then BranchVerdict(p, a)
    else PullVerdict(p, a)
  }

  /** Nothing but the parent can be in the way of a ready publication. */
  lemma ReadyVerdict(p: Plan, h: Hashing, a: RemoteState, retrying: bool)
    requires Ready(p, h, a)
    ensures Verdict(p, h, a, retrying) ==
      if ParentReadable(p, a) then Continue else Halt(Failed, "parent_read_failed")
  {
  }

  // Each verdict looks at its own part of the remote.

  lemma ParentVerdictLooksAt(p: Plan, a: RemoteState, b: RemoteState)
    requires b.commits == a.commits
    ensures ParentVerdict(p, b) == ParentVerdict(p, a)
  {
  }

  lemma TreeVerdictLooksAt(p: Plan, h: Hashing, a: RemoteState, b: RemoteState)
    requires p.parent in a.commits && b.commits == a.commits && b.trees == a.trees
    ensures TreeVerdict(p, h, b) == TreeVerdict(p, h, a)
  {
  }

  lemma CommitVerdictLooksAt(p: Plan, h: Hashing, a: RemoteState, b: RemoteState)
    requires b.commits == a.commits
    ensures CommitVerdict(p, h, b) == CommitVerdict(p, h, a)
  {
  }

  lemma BranchVerdictLooksAt(p: Plan, a: RemoteState, b: RemoteState)
    requires b.refs == a.refs
    ensures BranchVerdict(p, b) == BranchVerdict(p, a)
  {
  }

  lemma PullVerdictLooksAt(p: Plan, a: RemoteState, b: RemoteState)
    requires b.prs == a.prs
    ensures PullVerdict(p, b) == PullVerdict(p, a)
  {
  }

  // ---------------------------------------------------------------- other users

  /** Others may do anything but delete the publication's branch; a pull request cannot be deleted. */
  predicate Foreign(p: Plan, a: RemoteState, b: RemoteState) {
    && (p.branch in a.refs ==> p.branch in b.refs)
    && (OurPull(a, p).Some? ==> OurPull(b, p).Some?)
  }

  method Interfere(p: Plan, remote: Remote, busy: bool)
    modifies remote`s
    ensures Foreign(p, old(remote.s), remote.s)
    ensures !busy ==> remote.s == old(remote.s)
  {
    var t: RemoteState := *;
    if busy && Foreign(p, remote.s, t) {
      remote.s := t;
    }
  }

  /** What the adapter created: at most one branch, the publication's at its commit, and at most one pull request for
      its pair; and both are still there. */
  ghost predicate Once(p: Plan, remote: Remote)
    reads remote
  {
    && (remote.branchesMade == [] || (remote.branchesMade == [(p.branch, None, p.commit)] && p.branch in remote.s.refs))
    && (remote.pullsMade == []
        || (|remote.pullsMade| == 1 && remote.pullsMade[0].headRef == p.branch && remote.pullsMade[0].baseRef == p.base
            && OurPull(remote.s, p).Some?))
  }

  lemma OpenedIsFound(p: Plan, s: RemoteState)
    requires p.branch in s.refs
    ensures OurPull(OpenPull(s, p.title, p.body, p.branch, p.base), p).Some?
  {
    var t := OpenPull(s, p.title, p.body, p.branch, p.base);
    FindPullAppended(s.prs, t.prs[|s.prs|], p.branch, p.base);
  }

  predicate Stops(step: Step) {
    step.Halt? ==> step.status in {Failed, Stale, Conflict}
  }

  // ---------------------------------------------------------------- the steps

  ghost predicate BlobsPresent(p: Plan, s: RemoteState) {
    forall i :: 0 <= i < |p.objects| ==> p.objects[i].sha in s.blobs
  }

  method UploadBlob(p: Plan, remote: Remote, i: nat, retrying: bool, busy: bool, calm: bool) returns (step: Step)
    requires i < |p.objects|
    modifies remote
    ensures Stops(step) && (old(Once(p, remote)) ==> Once(p, remote))
    ensures !busy ==> StepEnds(p, remote.hashing, old(remote.s), remote.s, step)
    ensures !busy ==> remote.s == old(remote.s).(blobs := remote.s.blobs)
    ensures !busy && step.Continue? ==>
      var sha := p.objects[i].sha; remote.s.blobs == Put(old(remote.s.blobs), sha, sha)
    ensures !busy && calm ==>
      var o := p.objects[i];
      var fits := if retrying && o.sha in old(remote.s.blobs) then old(remote.s.blobs)[o.sha] == o.sha
                  else remote.hashing.blob(o.content) == o.sha;
      step == if fits then Continue else Halt(Conflict, "blob_sha_mismatch")
  {
    hide Readable, Split, Show, FindPull, CommitMatches, PullMatches, Wanted, Entries;
    var o := p.objects[i];
    Unmoved(p, remote.hashing, remote.s, Halt(Failed, "blob_creation_failed"));
    Unmoved(p, remote.hashing, remote.s, Continue);
    if retrying {
      Interfere(p, remote, busy);
      var existing := remote.Blob(o.sha, calm);
      if existing.Raised? {
        return Halt(Failed, "blob_creation_failed");
      }
      if existing.value.Some? {
        return if existing.value.value != o.sha then Halt(Conflict, "blob_sha_mismatch") else Continue;
      }
    }
    BlobPut(p, remote.hashing, remote.s, remote.hashing.blob(o.content));
    Interfere(p, remote, busy);
    var made := remote.CreateBlob(o.content, calm);
    if made.Raised? {
      return Halt(Failed, "blob_creation_failed");
    }
    return if made.value != o.sha then Halt(Conflict, "blob_sha_mismatch") else Continue;
  }

  method UploadBlobs(p: Plan, remote: Remote, retrying: bool, busy: bool, calm: bool) returns (step: Step)
    modifies remote
    ensures Stops(step) && (old(Once(p, remote)) ==> Once(p, remote))
    ensures !busy ==> StepEnds(p, remote.hashing, old(remote.s), remote.s, step)
    ensures !busy ==> remote.s == old(remote.s).(blobs := remote.s.blobs)
    ensures !busy && step.Continue? ==> BlobsPresent(p, remote.s)
    ensures !busy && calm ==>
      step == if BlobsFit(p, remote.hashing, old(remote.s), retrying) then Continue
              else Halt(Conflict, "blob_sha_mismatch")
  {
    hide Ready, Explained, HaltIsExplained, Once, BlobFits, Kept, ParentReadable;
    Unmoved(p, remote.hashing, remote.s, Continue);
    for i := 0 to |p.objects|
      invariant old(Once(p, remote)) ==> Once(p, remote)
      invariant !busy ==> StepEnds(p, remote.hashing, old(remote.s), remote.s, Continue)
      invariant !busy ==> remote.s == old(remote.s).(blobs := remote.s.blobs)
      invariant !busy ==> Sent(p, old(remote.s.blobs), remote.s.blobs, i)
      invariant !busy && calm ==> forall j :: 0 <= j < i ==> BlobFits(p, remote.hashing, old(remote.s), retrying, j)
    {
      ghost var s := remote.s;
      if !busy {
        FitsLate(p, remote.hashing, old(remote.s), s, retrying, i);
        SentNext(p, old(remote.s.blobs), s.blobs, i);
      }
      step := UploadBlob(p, remote, i, retrying, busy, calm);
      if !busy {
        StepsCompose(p, remote.hashing, old(remote.s), s, remote.s, step);
      }
      if step.Halt? {
        return;
      }
    }
    return Continue;
  }

  /** The first `n` blobs have been added to those that were there, each under its id. */
  predicate Sent(p: Plan, before: map<Sha, Sha>, after: map<Sha, Sha>, n: nat)
    requires n <= |p.objects|
  {
    && (forall x :: x in before ==> x in after && after[x] == before[x])
    && (forall x :: x in after && x !in before ==>
          after[x] == x && exists k :: 0 <= k < n && p.objects[k].sha == x)
    && (forall k :: 0 <= k < n ==> p.objects[k].sha in after)
  }

  lemma SentNext(p: Plan, before: map<Sha, Sha>, after: map<Sha, Sha>, n: nat)
    requires n < |p.objects| && Sent(p, before, after, n)
    ensures var sha := p.objects[n].sha; Sent(p, before, Put(after, sha, sha), n + 1)
  {
  }

  /** Whether a blob fits can be told from the remote as it was before the first one was sent. */
  lemma FitsLate(p: Plan, h: Hashing, a: RemoteState, b: RemoteState, retrying: bool, i: nat)
    requires i < |p.objects| && Sent(p, a.blobs, b.blobs, i)
    ensures BlobFits(p, h, a, retrying, i) <==>
      var o := p.objects[i];
      if retrying && o.sha in b.blobs then b.blobs[o.sha] == o.sha else h.blob(o.content) == o.sha
  {
    var o := p.objects[i];
    if SentBefore(p, i) {
      var k :| 0 <= k < i && p.objects[k].sha == o.sha;
      assert o.sha in b.blobs;
    }
  }

  /** The parent must be there under its own id; its tree is what the new tree is built on. */
  method ReadParent(p: Plan, remote: Remote, busy: bool, calm: bool) returns (step: Step, base: Sha)
    modifies remote
    ensures Stops(step) && (old(Once(p, remote)) ==> Once(p, remote))
    ensures !busy ==> remote.s == old(remote.s) && StepEnds(p, remote.hashing, remote.s, remote.s, step)
    ensures !busy && step.Continue? ==> p.parent in remote.s.commits && base == ParentTree(p, remote.s)
    ensures !busy && step.Continue? ==> ParentReadable(p, remote.s)
    ensures !busy && calm ==> step == ParentVerdict(p, remote.s)
  {
    hide Readable, Split, Show, FindPull, CommitMatches, PullMatches, Wanted, Entries;
    Interfere(p, remote, busy);
    var parent := remote.Commit(p.parent, calm);
    if parent.Raised? {
      return Halt(Failed, "parent_read_failed"), "";
    }
    if parent.value.None? || parent.value.value.sha != p.parent {
      return Halt(Conflict, "parent_sha_mismatch"), "";
    }
    return Continue, parent.value.value.data.tree;
  }

  /** The parent must be there; then the tree is found or created. */
  method EnsureTree(p: Plan, remote: Remote, busy: bool, calm: bool) returns (step: Step)
    modifies remote
    ensures Stops(step) && (old(Once(p, remote)) ==> Once(p, remote))
    ensures !busy ==> StepEnds(p, remote.hashing, old(remote.s), remote.s, step)
    ensures !busy && step.Continue? ==> p.tree in remote.s.trees && p.parent in remote.s.commits
    ensures !busy && step.Continue? ==> ParentReadable(p, old(remote.s))
    ensures !busy ==> remote.s == old(remote.s).(trees := remote.s.trees)
    ensures !busy && calm && BlobsPresent(p, old(remote.s)) ==>
      step == if ParentVerdict(p, old(remote.s)).Halt? then ParentVerdict(p, old(remote.s))
              else TreeVerdict(p, remote.hashing, old(remote.s))
  {
    hide Readable, Split, Show, FindPull, CommitMatches, PullMatches, Wanted, Kept, ParentReadable;
    Unmoved(p, remote.hashing, remote.s, Continue);
    var base;
    step, base := ReadParent(p, remote, busy, calm);
    if step.Halt? {
      return;
    }
    Interfere(p, remote, busy);
    var found := remote.Tree(p.tree, calm);
    if found.Raised? {
      return Halt(Failed, "tree_read_failed");
    }
    if found.value.Some? {
      return if found.value.value != p.tree then Halt(Conflict, "tree_sha_mismatch") else Continue;
    }
    TreePut(p, remote.hashing, remote.s, remote.hashing.tree(base, Entries(p)));
    Interfere(p, remote, busy);
    var made := remote.CreateTree(base, Entries(p), calm);
    if made.Raised? {
      return Halt(Failed, "tree_creation_failed");
    }
    return if made.value != p.tree then Halt(Conflict, "tree_sha_mismatch") else Continue;
  }

  method EnsureCommit(p: Plan, remote: Remote, busy: bool, calm: bool) returns (step: Step)
    modifies remote
    ensures Stops(step) && (old(Once(p, remote)) ==> Once(p, remote))
    ensures !busy ==> StepEnds(p, remote.hashing, old(remote.s), remote.s, step)
    ensures !busy ==> remote.s == old(remote.s).(commits := remote.s.commits)
    ensures !busy && step.Continue? ==> p.commit in remote.s.commits && CommitMatches(remote.s.commits[p.commit], p)
    ensures !busy && calm && p.tree in old(remote.s).trees && p.parent in old(remote.s).commits ==>
      step == CommitVerdict(p, remote.hashing, old(remote.s))
  {
    hide Readable, Split, Show, FindPull, PullMatches, Entries, Kept;
    Unmoved(p, remote.hashing, remote.s, Continue);
    Interfere(p, remote, busy);
    var found := remote.Commit(p.commit, calm);
    if found.Raised? {
      return Halt(Failed, "commit_read_failed");
    }
    var commit: RemoteCommit;
    if found.value.Some? {
      commit := found.value.value;
      if commit.sha != p.commit {
        return Halt(Conflict, "commit_sha_mismatch");
      }
    } else {
      CommitPut(p, remote.hashing, remote.s);
      Interfere(p, remote, busy);
      var made := remote.CreateCommit(Wanted(p), calm);
      if made.Raised? {
        return Halt(Failed, "commit_creation_failed");
      }
      commit := made.value;
    }
    return if CommitMatches(commit, p) then Continue else Halt(Conflict, "commit_sha_mismatch");
  }

  method CheckBase(p: Plan, remote: Remote, busy: bool, calm: bool) returns (step: Step)
    modifies remote
    ensures !busy ==> remote.s == old(remote.s)
    ensures Stops(step) && (old(Once(p, remote)) ==> Once(p, remote))
    ensures !busy ==> StepEnds(p, remote.hashing, old(remote.s), remote.s, step)
    ensures step.Continue? ==> p.base in remote.s.refs && remote.s.refs[p.base] == p.preparedBase
    ensures !busy && calm ==>
      step == if p.base !in remote.s.refs then Halt(Failed, "remote_base_read_failed")
              else if remote.s.refs[p.base] != p.preparedBase then Halt(Stale, "stale_base")
              else Continue
  {
    Interfere(p, remote, busy);
    var current := remote.BaseRef(p.base, calm);
    if current.Raised? {
      return Halt(Failed, "remote_base_read_failed");
    }
    return if current.value != p.preparedBase then Halt(Stale, "stale_base") else Continue;
  }

  /** An uncertain creation is settled by reading the branch again.  `sure`: the creation answers. */
  method EnsureBranch(p: Plan, remote: Remote, busy: bool, calm: bool, sure: bool) returns (step: Step)
    modifies remote
    ensures Stops(step) && (old(Once(p, remote)) ==> Once(p, remote))
    ensures !busy ==> StepEnds(p, remote.hashing, old(remote.s), remote.s, step)
    ensures !busy ==> remote.s == old(remote.s).(refs := remote.s.refs)
    ensures !busy && step.Continue? ==> p.branch in remote.s.refs && remote.s.refs[p.branch] == p.commit
    ensures !busy && calm && p.branch in remote.s.refs ==> step == BranchVerdict(p, old(remote.s))
    ensures !busy && calm && p.branch !in remote.s.refs ==> step == Halt(Failed, "branch_creation_uncertain")
    ensures !busy && calm && sure && p.commit in old(remote.s).commits ==> p.branch in remote.s.refs
  {
    hide Readable, Split, Show, FindPull, CommitMatches, PullMatches, Wanted, Entries, Kept;
    Unmoved(p, remote.hashing, remote.s, Continue);
    Interfere(p, remote, busy);
    var found := remote.BranchRef(p.branch, calm);
    if found.Raised? {
      return Halt(Failed, "branch_read_failed");
    }
    var ref := found.value;
    if ref.None? {
      BranchPut(p, remote.hashing, remote.s);
      Interfere(p, remote, busy);
      var made := remote.CreateBranch(p.branch, p.commit, sure);
      if made.Answered? {
        ref := Some(made.value);
      } else {
        Interfere(p, remote, busy);
        found := remote.BranchRef(p.branch, calm);
        if found.Raised? {
          return Halt(Failed, "branch_creation_uncertain");
        }
        ref := found.value;
      }
    }
    if ref.None? {
      return Halt(Failed, "branch_creation_uncertain");
    }
    return if ref.value != p.commit then Halt(Conflict, "branch_conflict") else Continue;
  }

  method EnsurePullRequest(p: Plan, remote: Remote, busy: bool, calm: bool, sure: bool)
    returns (step: Step, pr: Option<PullRequest>)
    requires !busy ==> p.branch in remote.s.refs && remote.s.refs[p.branch] == p.commit
    modifies remote
    ensures Stops(step) && (old(Once(p, remote)) ==> Once(p, remote))
    ensures !busy ==> StepEnds(p, remote.hashing, old(remote.s), remote.s, step)
    ensures !busy ==> remote.s == old(remote.s).(prs := remote.s.prs)
    ensures step.Continue? ==> pr.Some? && PullMatches(pr.value, p)
    ensures !busy && step.Continue? ==> pr == OurPull(remote.s, p)
    ensures !busy && calm && OurPull(remote.s, p).Some? ==> step == PullVerdict(p, old(remote.s))
    ensures !busy && calm && OurPull(remote.s, p).None? ==> step == Halt(Failed, "pr_creation_uncertain")
    ensures !busy && calm && sure && p.base in old(remote.s).refs ==> OurPull(remote.s, p).Some?
  {
    hide Readable, Split, Show, FindPull, CommitMatches, Wanted, Entries, Kept;
    Unmoved(p, remote.hashing, remote.s, Continue);
    Interfere(p, remote, busy);
    var found := remote.FindPullRequest(p.branch, p.base, calm);
    if found.Raised? {
      return Halt(Failed, "pr_read_failed"), None;
    }
    pr := found.value;
    if pr.None? {
      if !busy {
        PullOpened(p, remote.hashing, remote.s);
      }
      Interfere(p, remote, busy);
      if p.branch in remote.s.refs {
        OpenedIsFound(p, remote.s);
      }
      var made := remote.CreatePullRequest(p.title, p.body, p.branch, p.base, sure);
      if made.Answered? {
        pr := Some(made.value);
      } else {
        Interfere(p, remote, busy);
        found := remote.FindPullRequest(p.branch, p.base, calm);
        if found.Raised? {
          return Halt(Failed, "pr_creation_uncertain"), None;
        }
        pr := found.value;
      }
    }
    if pr.None? {
      return Halt(Failed, "pr_creation_uncertain"), None;
    }
    return if PullMatches(pr.value, p) then Continue else Halt(Conflict, "pr_conflict"), pr;
  }

  // ---------------------------------------------------------------- the action

  datatype Reply = Done | Refused(code: string) | Crashed

  /** What the rest of the application answers during an attempt: whether policy still asks for confirmation and
      the approval is satisfied, whether the repository is the bound one, whether the workflow is eligible, and
      whether the local objects can be read, which they cannot be as GitProof.ReadAgainIffEmpty shows. */
  datatype Circumstances = Circumstances(satisfied: bool, bound: bool, eligible: bool, readable: bool)

  const FAVOURABLE := Circumstances(true, true, true, true)

  class PublicationAction {
    const plan: Plan
    var status: Status
    var failureCode: Option<string>
    var remoteTree: Option<Sha>
    var remoteCommit: Option<Sha>
    var remoteRef: Option<Sha>
    var pullNumber: Option<nat>

    constructor (plan: Plan)
      ensures this.plan == plan && status == PendingApproval && failureCode == None
      ensures remoteTree == remoteCommit == remoteRef == None && pullNumber == None
    {
      this.plan, status, failureCode := plan, PendingApproval, None;
      remoteTree, remoteCommit, remoteRef, pullNumber := None, None, None, None;
    }

    /** `_mark` and `_mark_failed`; the database may lose the mark. */
    method Mark(step: Step, calm: bool) returns (r: Reply)
      requires step.Halt?
      modifies this`status, this`failureCode
      ensures r.Crashed? ==> status == old(status) && failureCode == old(failureCode)
      ensures !r.Crashed? ==> r == Refused(step.code) && status == step.status && failureCode == Some(step.code)
      ensures calm ==> !r.Crashed?
    {
      var fails := Mishap(calm);
      if fails {
        return Crashed;
      }
      status, failureCode := step.status, Some(step.code);
      return Refused(step.code);
    }

    /** From the first blob to the pull request, after PUBLISHING has been committed. */
    method Upload(remote: Remote, retrying: bool, busy: bool, calm: bool) returns (step: Step, pr: Option<PullRequest>)
      modifies remote
      ensures Stops(step) && (old(Once(plan, remote)) ==> Once(plan, remote))
      ensures step.Continue? ==> pr.Some? && PullMatches(pr.value, plan)
      ensures !busy ==> StepEnds(plan, remote.hashing, old(remote.s), remote.s, step)
      ensures !busy && step.Continue? ==>
        IsPublished(plan, remote.s) && pr == OurPull(remote.s, plan)
      ensures !busy && step.Continue? && Ready(plan, remote.hashing, old(remote.s)) ==>
        ParentReadable(plan, old(remote.s))
      ensures !busy && calm && plan.base in old(remote.s).refs && old(remote.s).refs[plan.base] == plan.preparedBase ==>
        step == Verdict(plan, remote.hashing, old(remote.s), retrying)
    {
      hide Ready, Explained, HaltIsExplained, CommitMatches, PullMatches, FindPull, Kept, Readable, Once;
      hide BlobsFit, ParentVerdict, TreeVerdict, CommitVerdict, BranchVerdict, PullVerdict, IsPublished;
      ghost var h, s0 := remote.hashing, remote.s;
      pr := None;
      step := UploadBlobs(plan, remote, retrying, busy, calm);
      if step.Halt? {
        return;
      }
      ghost var s1 := remote.s;
      if !busy {
        ParentVerdictLooksAt(plan, s0, s1);
        if plan.parent in s0.commits {
          TreeVerdictLooksAt(plan, h, s0, s1);
        }
      }
      step := EnsureTree(plan, remote, busy, calm);
      if !busy {
        StepsCompose(plan, h, s0, s1, remote.s, step);
        ParentReadIsKept(plan, h, s0, s1);
        CommitVerdictLooksAt(plan, h, s0, remote.s);
      }
      if step.Halt? {
        return;
      }
      ghost var s2 := remote.s;
      step := EnsureCommit(plan, remote, busy, calm);
      if !busy {
        StepsCompose(plan, h, s0, s2, remote.s, step);
        BranchVerdictLooksAt(plan, s0, remote.s);
      }
      if step.Halt? {
        return;
      }
      ghost var s3 := remote.s;
      step := CheckBase(plan, remote, busy, calm);
      if !busy {
        StepsCompose(plan, h, s0, s3, s3, step);
      }
      if step.Halt? {
        return;
      }
      step := EnsureBranch(plan, remote, busy, calm, calm);
      if !busy {
        StepsCompose(plan, h, s0, s3, remote.s, step);
        PullVerdictLooksAt(plan, s0, remote.s);
        BaseIsKept(plan, s3, remote.s);
      }
      if step.Halt? {
        return;
      }
      ghost var s4 := remote.s;
      step, pr := EnsurePullRequest(plan, remote, busy, calm, calm);
      if !busy {
        StepsCompose(plan, h, s0, s4, remote.s, step);
        if step.Continue? {
          MatchingIsPublished(plan, remote.s);
        }
      }
    }

    /** The checks of `publish` up to the commit of PUBLISHING; none of them creates anything. */
    method Enter(remote: Remote, w: Circumstances, busy: bool, calm: bool) returns (r: Option<Reply>)
      requires status != Published
      modifies this`status, this`failureCode, remote
      ensures old(Once(plan, remote)) ==> Once(plan, remote)
      ensures !busy ==> remote.s == old(remote.s)
      ensures r.None? ==> w == FAVOURABLE && status == Publishing
      ensures !busy && r.None? ==> plan.base in remote.s.refs && remote.s.refs[plan.base] == plan.preparedBase
      ensures r.Some? ==> status != Published && StatusEnds(w, old(status), status, r.value)
      ensures !busy && status != old(status) && status in {Failed, Stale, Conflict} ==>
        failureCode.Some? && HaltIsExplained(plan, remote.hashing, remote.s, Halt(status, failureCode.value))
      ensures calm && w.satisfied && !w.bound ==> r == Some(Refused("repository_mismatch")) && status == old(status)
      ensures calm && w.satisfied && w.bound && !w.eligible ==>
        r == Some(Refused("git_qa_ineligible")) && status == old(status)
      ensures !busy && calm && w.satisfied && w.bound && w.eligible ==>
        if plan.base !in remote.s.refs then
          && r == Some(Refused("remote_base_read_failed"))
          && status == Failed && failureCode == Some("remote_base_read_failed")
        else if remote.s.refs[plan.base] != plan.preparedBase then
          r == Some(Refused("stale_base")) && status == Stale && failureCode == Some("stale_base")
        else if w.readable then r.None?
        else r == Some(Refused("publication_objects_unreadable")) && status == old(status)
    {
      hide Ready, Explained, CommitMatches, PullMatches, FindPull, Kept, Readable, ParentReadable, Once;
      if !w.satisfied {
        return Some(Refused("approval_not_satisfied"));
      }
      var unreachable := Mishap(calm);
      if unreachable {
        var marked := Mark(Halt(Failed, "repository_metadata_failed"), calm);
        return Some(marked);
      }
      if !w.bound {
        return Some(Refused("repository_mismatch"));
      }
      if !w.eligible {
        return Some(Refused("git_qa_ineligible"));
      }
      var step := CheckBase(plan, remote, busy, calm);
      if step.Halt? {
        var marked := Mark(step, calm);
        return Some(marked);
      }
      if !w.readable {
        return Some(Refused("publication_objects_unreadable"));
      }
      var lost := Mishap(calm);
      if lost {
        return Some(Crashed);
      }
      status := Publishing;
      var interrupted := Mishap(calm);
      return if interrupted then Some(Crashed) else None;
    }

    /** `publish`. */
    method Publish(remote: Remote, w: Circumstances, busy: bool, calm: bool) returns (r: Reply)
      modifies this, remote
      ensures old(Once(plan, remote)) ==> Once(plan, remote)
      ensures StatusEnds(w, old(status), status, r)
      ensures !busy ==>
        RemoteEnds(plan, remote.hashing, w, old(remote.s), remote.s, old(status), status, failureCode)
      ensures status == Published && old(status) != Published ==>
        remoteTree == Some(plan.tree) && remoteCommit == remoteRef == Some(plan.commit) && pullNumber.Some?
      ensures !busy && status == Published && old(status) != Published ==>
        OurPull(remote.s, plan).Some? && pullNumber == Some(OurPull(remote.s, plan).value.number)
      ensures !busy && calm && w == FAVOURABLE && old(status) != Published ==>
        match Verdict(plan, remote.hashing, old(remote.s), old(status) in {Publishing, Failed})
        case Continue => status == Published
        case Halt(stop, code) => status == stop && failureCode == Some(code) && r == Refused(code)
      ensures !busy && calm && w == FAVOURABLE && old(status) != Published && BaseMoved(plan, old(remote.s)) ==>
        status == Stale && failureCode == Some("stale_base")
      ensures calm && w.satisfied && !w.bound && old(status) != Published ==>
        r == Refused("repository_mismatch") && status == old(status)
      ensures calm && w.satisfied && w.bound && !w.eligible && old(status) != Published ==>
        r == Refused("git_qa_ineligible") && status == old(status)
      ensures
        !busy && calm && w == FAVOURABLE && Ready(plan, remote.hashing, old(remote.s)) && old(status) != Published ==>
        if ParentReadable(plan, old(remote.s)) then status == Published
        else status == Failed && failureCode == Some("parent_read_failed")
    {
      hide Ready, HaltIsExplained, CommitMatches, PullMatches, FindPull, Kept, ParentReadable, IsPublished, Once;
      hide BlobsFit, ParentVerdict, TreeVerdict, CommitVerdict, BranchVerdict, PullVerdict;
      ghost var h, s0 := remote.hashing, remote.s;
      KeptAtFirst(plan, s0);
      if status == Published {
        return Done;
      }
      var retrying := status in {Publishing, Failed};
      if Ready(plan, h, s0) {
        ReadyVerdict(plan, h, s0, retrying);
      }
      var refusal := Enter(remote, w, busy, calm);
      if refusal.Some? {
        return refusal.value;
      }
      r := Finish(remote, retrying, busy, calm);
    }

    /** `publish` from PUBLISHING on. */
    method Finish(remote: Remote, retrying: bool, busy: bool, calm: bool) returns (r: Reply)
      requires status == Publishing
      modifies this, remote
      ensures old(Once(plan, remote)) ==> Once(plan, remote)
      ensures status in {Publishing, Published, Failed, Stale, Conflict} && (r == Done <==> status == Published)
      ensures !busy ==> Kept(plan, old(remote.s), remote.s)
      ensures !busy && Ready(plan, remote.hashing, old(remote.s)) ==>
        && Ready(plan, remote.hashing, remote.s)
        && (ParentReadable(plan, old(remote.s)) <==> ParentReadable(plan, remote.s))
      ensures !busy && status == Published ==> IsPublished(plan, remote.s)
      ensures !busy && status == Published && Ready(plan, remote.hashing, old(remote.s)) ==>
        ParentReadable(plan, old(remote.s))
      ensures !busy && status in {Failed, Stale, Conflict} ==>
        failureCode.Some? && HaltIsExplained(plan, remote.hashing, remote.s, Halt(status, failureCode.value))
      ensures status == Published ==>
        remoteTree == Some(plan.tree) && remoteCommit == remoteRef == Some(plan.commit) && pullNumber.Some?
      ensures !busy && status == Published ==>
        OurPull(remote.s, plan).Some? && pullNumber == Some(OurPull(remote.s, plan).value.number)
      ensures !busy && calm && plan.base in old(remote.s).refs && !BaseMoved(plan, old(remote.s)) ==>
        match Verdict(plan, remote.hashing, old(remote.s), retrying)
        case Continue => status == Published
        case Halt(stop, code) => status == stop && failureCode == Some(code) && r == Refused(code)
    {
      hide Ready, HaltIsExplained, CommitMatches, PullMatches, FindPull, Kept, ParentReadable, IsPublished, Once;
      hide Verdict;
      ghost var h, s0 := remote.hashing, remote.s;
      var step, pr := Upload(remote, retrying, busy, calm);
      if !busy {
        UploadKeepsParent(plan, h, s0, remote.s, step);
      }
      if step.Halt? {
        r := Mark(step, calm);
        return;
      }
      var lost := Mishap(calm);
      if lost {
        return Crashed;
      }
      remoteTree, remoteCommit, remoteRef := Some(plan.tree), Some(plan.commit), Some(plan.commit);
      pullNumber := Some(pr.value.number);
      status := Published;
      return Done;
    }
  }

  /** How an attempt may leave the status, whatever others do to the remote meanwhile. */
  predicate StatusEnds(w: Circumstances, was: Status, now: Status, r: Reply) {
    && (was == Published ==> r == Done && now == was)
    && (was != Published && !w.satisfied ==> r == Refused("approval_not_satisfied") && now == was)
    && (now == Published && was != Published ==> r == Done && w == FAVOURABLE)
    && (now != was ==> w.satisfied && now in {Publishing, Published, Failed, Stale, Conflict})
    && (r == Done ==> now == Published)
  }

  /** How an attempt may leave the remote while nobody else touches it. */
  ghost predicate RemoteEnds(
    p: Plan, h: Hashing, w: Circumstances, a: RemoteState, b: RemoteState, was: Status, now: Status,
    code: Option<string>)
  {
    && Kept(p, a, b)
    && (Ready(p, h, a) ==> Ready(p, h, b) && (ParentReadable(p, a) <==> ParentReadable(p, b)))
    && (was == Published || w != FAVOURABLE || (p.base in a.refs && a.refs[p.base] != p.preparedBase) ==> b == a)
    && (now == Published && was != Published ==> IsPublished(p, b) && (Ready(p, h, a) ==> ParentReadable(p, a)))
    && (now != was && now in {Failed, Stale, Conflict} ==>
      code.Some? && HaltIsExplained(p, h, b, Halt(now, code.value)))
  }

  lemma ParentReadIsKept(p: Plan, h: Hashing, a: RemoteState, b: RemoteState)
    requires StepEnds(p, h, a, b, Continue)
    ensures Ready(p, h, a) ==> (ParentReadable(p, a) <==> ParentReadable(p, b))
  {
    hide Explained, HaltIsExplained, CommitMatches, PullMatches, FindPull, Readable;
  }

  lemma UploadKeepsParent(p: Plan, h: Hashing, a: RemoteState, b: RemoteState, step: Step)
    requires StepEnds(p, h, a, b, step)
    ensures Kept(p, a, b)
    ensures Ready(p, h, a) ==> Ready(p, h, b) && (ParentReadable(p, a) <==> ParentReadable(p, b))
    ensures step.Halt? ==> HaltIsExplained(p, h, b, step)
  {
    hide Explained, HaltIsExplained, CommitMatches, PullMatches, FindPull, Readable;
  }

  lemma BaseIsKept(p: Plan, a: RemoteState, b: RemoteState)
    requires Kept(p, a, b) && p.base in a.refs
    ensures p.base in b.refs && (b.refs[p.base] == a.refs[p.base])
  {
  }

  // ---------------------------------------------------------------- any number of attempts

  /** `disturbed`: other users changed the repository since the last attempt; `busy`: they may do so during it. */
  datatype Try = Try(disturbed: bool, busy: bool, w: Circumstances, calm: bool)

  predicate Undisturbed(tries: seq<Try>) {
    forall i :: 0 <= i < |tries| ==> !tries[i].disturbed && !tries[i].busy
  }

  predicate SomeSatisfied(tries: seq<Try>) {
    exists i :: 0 <= i < |tries| && tries[i].w.satisfied
  }

  predicate CalmEnd(tries: seq<Try>) {
    tries != [] && tries[|tries| - 1].calm && tries[|tries| - 1].w == FAVOURABLE
  }

  /** What holds while nobody else touches the repository. */
  ghost predicate Converging(p: Plan, h: Hashing, a: RemoteState, b: RemoteState, first: Status, status: Status) {
    && Kept(p, a, b)
    && (Ready(p, h, a) ==> Ready(p, h, b) && (ParentReadable(p, a) <==> ParentReadable(p, b)))
    && (Ready(p, h, a) && first !in {Stale, Conflict} ==> status !in {Stale, Conflict})
    && (Ready(p, h, a) && first != Published && status == Published ==> ParentReadable(p, a))
  }

  lemma ConvergingStep(
      p: Plan, h: Hashing, w: Circumstances, a: RemoteState, b: RemoteState, c: RemoteState, first: Status,
      was: Status, now: Status, code: Option<string>)
    requires Converging(p, h, a, b, first, was) && RemoteEnds(p, h, w, b, c, was, now, code)
    ensures Converging(p, h, a, c, first, now)
  {
    hide Kept, Ready, ParentReadable, Explained, IsPublished;
    KeptTwice(p, a, b, c);
    if Ready(p, h, c) && code.Some? {
      ReadyIsNotExplained(p, h, c, code.value);
    }
  }

  /** Where a ready publication is after a favourable attempt without faults. */
  predicate Converged(p: Plan, s: RemoteState, status: Status, code: Option<string>) {
    if ParentReadable(p, s) then status == Published else status == Failed && code == Some("parent_read_failed")
  }

  /**
    * Main result. Over any number of sequential attempts, with faults anywhere and others changing the repository
    * between and during them, the adapter creates at most one branch, the publication's at its commit, and at most one
    * pull request for the pair, and touches no existing ref; PUBLISHED needs a satisfied approval and is never left.
    * Undisturbed, no ref moves, and whatever went wrong in earlier attempts, a ready publication ends PUBLISHED at the
    * first favourable attempt without faults if the parent can be read, and can only end FAILED if it cannot.
    */
  method Attempts(action: PublicationAction, remote: Remote, tries: seq<Try>)
    requires remote.branchesMade == [] && remote.pullsMade == []
    modifies action, remote
    ensures Once(action.plan, remote)
    ensures action.status == Published && old(action.status) != Published ==> SomeSatisfied(tries)
    ensures old(action.status) == Published ==> action.status == Published
    ensures action.status == Rejected ==> old(action.status) == Rejected
    ensures Undisturbed(tries) ==> Kept(action.plan, old(remote.s), remote.s)
    ensures Undisturbed(tries) && Ready(action.plan, remote.hashing, old(remote.s)) ==>
      && Ready(action.plan, remote.hashing, remote.s)
      && (old(action.status) !in {Stale, Conflict} ==> action.status !in {Stale, Conflict})
      && (action.status == Published && old(action.status) != Published ==> ParentReadable(action.plan, old(remote.s)))
      && (CalmEnd(tries) && old(action.status) != Published ==>
            Converged(action.plan, old(remote.s), action.status, action.failureCode))
  {
    hide Kept, Ready, ParentReadable, Explained, IsPublished, HaltIsExplained, FindPull;
    var p := action.plan;
    ghost var h, s0, first := remote.hashing, remote.s, action.status;
    KeptAtFirst(p, s0);
    for i := 0 to |tries|
      invariant Once(p, remote)
      invariant action.status == Rejected ==> first == Rejected
      invariant first == Published ==> action.status == Published
      invariant action.status == Published && first != Published ==> SomeSatisfied(tries[..i])
      invariant Undisturbed(tries[..i]) ==> Converging(p, h, s0, remote.s, first, action.status)
      invariant Undisturbed(tries[..i]) && CalmEnd(tries[..i]) && Ready(p, h, s0) && first != Published ==>
        Converged(p, s0, action.status, action.failureCode)
    {
      var try := tries[i];
      assert tries[..i + 1][..i] == tries[..i] && tries[..i + 1][i] == try;
      assert Undisturbed(tries[..i + 1]) ==> Undisturbed(tries[..i]) && !try.disturbed && !try.busy;
      Interfere(p, remote, try.disturbed);
      ghost var before, was := remote.s, action.status;
      var _ := action.Publish(remote, try.w, try.busy, try.calm);
      if Undisturbed(tries[..i + 1]) {
        ConvergingStep(p, h, try.w, s0, before, remote.s, first, was, action.status, action.failureCode);
      }
      if SomeSatisfied(tries[..i]) || try.w.satisfied {
        SatisfiedGrows(tries, i);
      }
    }
    assert tries[..|tries|] == tries;
  }

  lemma KeptAtFirst(p: Plan, s: RemoteState)
    ensures Kept(p, s, s)
  {
  }

  lemma SatisfiedGrows(tries: seq<Try>, i: nat)
    requires i < |tries| && (SomeSatisfied(tries[..i]) || tries[i].w.satisfied)
    ensures SomeSatisfied(tries[..i + 1])
  {
    if tries[i].w.satisfied {
      assert tries[..i + 1][i].w.satisfied;
    } else {
      var k :| 0 <= k < i && tries[..i][k].w.satisfied;
      assert tries[..i + 1][k].w.satisfied;
    }
  }

  /** A publication may be ready while its parent, here a root commit, can never be read. */
  lemma RootParent() returns (p: Plan, h: Hashing, s: RemoteState)
    ensures Ready(p, h, s) && !ParentReadable(p, s)
  {
    var author := Show(Identity("a", "b"));
    IdentityReadBack("a", "b");
    var someone, stamp := Identity("a", "b"), Stamp(0, 0);
    p := Plan("main", "root", "topic", "root", "tree", "commit", "m", author, author, 0, "t", "b", []);
    h := Hashing(content => "blob", (base, entries) => "tree", data => "commit");
    var root := RemoteCommit("root", CommitData("tree", [], "m", someone, stamp, someone, stamp));
    s := RemoteState(map[], map["tree" := "tree"], map["root" := root], map["main" := "root"], []);
    hide Split, Show;
  }
}
