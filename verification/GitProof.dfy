/** The independent re-proof of a local commit and its second reading: `revalidate_committed_object` and
    `read_publication_objects` of git_changesets/local.py. */
module GitProof {
  import opened GitTrees
  import opened GitRewrite
  import opened GitChangesets
  import opened Options

  /** What a request says of a path.  A prepared action records what was there before; the proof itself does not. */
  datatype Row = Row(path: Path, mode: nat, candidateBlob: Oid, candidate: Digest, before: Option<Before>)
  datatype Before = Before(headBlob: Oid, preimage: Digest)

  datatype ProofRequest = ProofRequest(
    commit: Oid, parent: Oid, branch: string, message: string, author: string, committer: string,
    timestamp: int, paths: seq<Row>, expectedTree: Option<Oid>)

  datatype Proof = Proof(tree: Oid, changes: seq<Row>)

  /** A blob to be published. */
  datatype BlobToSend = BlobToSend(path: Path, mode: nat, data: seq<byte>, id: Oid)

  function PreparedRow(pp: PreparedPath): Row {
    Row(pp.path, pp.mode, pp.candidateBlob, pp.candidate, Some(Before(pp.headBlob, pp.preimage)))
  }

  function PreparedRows(paths: seq<PreparedPath>): seq<Row> {
    seq(|paths|, i requires 0 <= i < |paths| => PreparedRow(paths[i]))
  }

  function WithoutBefore(paths: seq<Row>): seq<Row> {
    seq(|paths|, i requires 0 <= i < |paths| => paths[i].(before := None))
  }

  predicate RecordedAt(objects: set<Oid>, tree: Oid, parentTree: Oid, item: Row) {
    && LeafAt(tree, item.path) == Some(Entry(item.mode, item.candidateBlob))
    && item.candidateBlob in objects && item.candidateBlob.BlobId? && Sha256(item.candidateBlob.data) == item.candidate
    && item.before.Some?
    && var Before(headBlob, preimage) := item.before.value;
    && LeafAt(parentTree, item.path) == Some(Entry(item.mode, headBlob))
    && headBlob in objects && headBlob.BlobId? && Sha256(headBlob.data) == preimage
  }

  ghost predicate DiffersExactlyAt(tree: Oid, parentTree: Oid, paths: seq<Row>) {
    forall p :: LeafAt(tree, p) != LeafAt(parentTree, p) <==> p in RecordedPaths(paths)
  }

  function RecordedPaths(paths: seq<Row>): set<Path> {
    set i | 0 <= i < |paths| :: paths[i].path
  }

  /** The commit on the branch is the one expected: its parent, tree and metadata, and a difference
      from its parent at exactly the recorded paths with the recorded blobs and modes. */
  ghost predicate Proven(objects: set<Oid>, branch: string, q: ProofRequest) {
    && branch == q.branch
    && q.commit in objects && q.commit.CommitId? && q.commit.parents == [q.parent]
    && (q.expectedTree.Some? ==> q.commit.tree == q.expectedTree.value)
    && q.commit.meta == CommitMeta(q.author, q.committer, q.message, q.timestamp, q.timestamp, 0, 0)
    && q.commit.tree in objects && q.parent in objects && q.parent.CommitId? && q.parent.tree in objects
    && Complete(objects, q.commit.tree) && Complete(objects, q.parent.tree)
    && DiffersExactlyAt(q.commit.tree, q.parent.tree, q.paths)
    && (forall i :: 0 <= i < |q.paths| ==> RecordedAt(objects, q.commit.tree, q.parent.tree, q.paths[i]))
  }

  /** In a complete tree, what `_tree_entry` finds with a file mode is what flattening finds, and
      what it finds with a directory mode is a tree. */
  lemma {:induction false} CompleteEntry(objects: set<Oid>, tree: Oid, p: Path)
    requires Complete(objects, tree)
    ensures var e := TreeEntry(objects, tree, p);
      (LeafAt(tree, p).Some? <==> e.Ok? && !IsDir(e.value.mode)) &&
      (LeafAt(tree, p).Some? ==> e == Ok(LeafAt(tree, p).value)) &&
      (e.Ok? && IsDir(e.value.mode) ==> e.value.id.TreeId?)
    decreases |p|
  {
    if |p| > 1 && p[0] in tree.entries && IsDir(tree.entries[p[0]].mode) {
      CompleteEntry(objects, tree.entries[p[0]].id, p[1..]);
    }
  }

  function Get(m: map<Path, Entry>, p: Path): Option<Entry> {
    if p in m then Some(m[p]) else None
  }

  lemma ChangedPaths(tree: Oid, parentTree: Oid, changed: set<Path>)
    requires tree.TreeId? && parentTree.TreeId?
    requires changed == set p | p in Flatten(parentTree).Keys + Flatten(tree).Keys &&
      Get(Flatten(parentTree), p) != Get(Flatten(tree), p)
    ensures forall p :: LeafAt(tree, p) != LeafAt(parentTree, p) <==> p in changed
  {
    forall p: Path
      ensures LeafAt(tree, p) != LeafAt(parentTree, p) <==> p in changed
    {
      FlattenAt(tree, p);
      FlattenAt(parentTree, p);
    }
  }

  /** One iteration of the path loop; a key that is not there raises. */
  method CheckPath(objects: set<Oid>, tree: Oid, parentTree: Oid, item: Row) returns (r: Outcome<Row>)
    requires Complete(objects, tree) && Complete(objects, parentTree)
    ensures r.Ok? <==> RecordedAt(objects, tree, parentTree, item)
    ensures r.Ok? ==> r.value == item.(before := None)
  {
    CompleteEntry(objects, tree, item.path);
    CompleteEntry(objects, parentTree, item.path);
    var e :- FindTreeEntry(objects, tree, item.path);
    var old_e :- FindTreeEntry(objects, parentTree, item.path);
    if e.id !in objects || old_e.id !in objects {
      return Crashed;
    }
    if !e.id.BlobId? || !old_e.id.BlobId? || e != Entry(item.mode, item.candidateBlob) || old_e.mode != item.mode {
      return Refused("git_publication_changeset_mismatch");
    }
    if item.before.None? {
      return Crashed;
    }
    if old_e.id != item.before.value.headBlob {
      return Refused("git_publication_changeset_mismatch");
    }
    if Sha256(old_e.id.data) != item.before.value.preimage || Sha256(e.id.data) != item.candidate {
      return Refused("git_publication_blob_mismatch");
    }
    return Ok(Row(item.path, e.mode, e.id, Sha256(e.id.data), None));
  }

  /** The comparison with the parent: what changed is what was recorded, as it was recorded. */
  method CheckChanges(objects: set<Oid>, tree: Oid, parentTree: Oid, paths: seq<Row>) returns (r: Outcome<seq<Row>>)
    requires tree.TreeId? && tree in objects && parentTree.TreeId? && parentTree in objects
    ensures r.Ok? <==>
      && Complete(objects, tree) && Complete(objects, parentTree) && DiffersExactlyAt(tree, parentTree, paths)
      && (forall i :: 0 <= i < |paths| ==> RecordedAt(objects, tree, parentTree, paths[i]))
    ensures r.Ok? ==> r.value == WithoutBefore(paths)
    ensures Complete(objects, tree) && Complete(objects, parentTree) && !DiffersExactlyAt(tree, parentTree, paths) ==>
      r == Refused("git_publication_changeset_mismatch")
  {
    hide RecordedAt, Flatten, LeafAt;
    var resulting :- TreeEntries(objects, tree);
    var before :- TreeEntries(objects, parentTree);
    var changed := set p | p in before.Keys + resulting.Keys && Get(before, p) != Get(resulting, p);
    ChangedPaths(tree, parentTree, changed);
    if changed != RecordedPaths(paths) {
      assert !DiffersExactlyAt(tree, parentTree, paths);
      return Refused("git_publication_changeset_mismatch");
    }
    r := CheckPaths(objects, tree, parentTree, paths);
  }

  /** The path loop. */
  method CheckPaths(objects: set<Oid>, tree: Oid, parentTree: Oid, paths: seq<Row>) returns (r: Outcome<seq<Row>>)
    requires Complete(objects, tree) && Complete(objects, parentTree)
    ensures r.Ok? <==> forall i :: 0 <= i < |paths| ==> RecordedAt(objects, tree, parentTree, paths[i])
    ensures r.Ok? ==> r.value == WithoutBefore(paths)
  {
    hide RecordedAt, Complete;
    var proof := [];
    for i := 0 to |paths|
      invariant forall k :: 0 <= k < i ==> RecordedAt(objects, tree, parentTree, paths[k])
      invariant proof == WithoutBefore(paths)[..i]
    {
      var row :- CheckPath(objects, tree, parentTree, paths[i]);
      proof := proof + [row];
    }
    return Ok(proof);
  }

  predicate IsChild(commit: Oid, parent: Oid) {
    commit.CommitId? && commit.parents == [parent]
  }

  /** `revalidate_committed_object`: the re-proof is exact. */
  method Revalidate(objects: set<Oid>, branch: string, q: ProofRequest) returns (r: Outcome<Proof>)
    ensures r.Ok? <==> Proven(objects, branch, q)
    ensures r.Ok? ==> r.value == Proof(q.commit.tree, WithoutBefore(q.paths))
    ensures branch != q.branch ==> r == Refused("git_publication_branch_mismatch")
    ensures branch == q.branch && q.commit !in objects ==> r == Refused("git_publication_commit_missing")
    ensures branch == q.branch && q.commit in objects && !IsChild(q.commit, q.parent) ==>
      r == Refused("git_publication_commit_proof_invalid")
    ensures branch == q.branch && q.commit in objects && IsChild(q.commit, q.parent) ==>
      var meta := q.commit.meta;
      if q.expectedTree.Some? && q.expectedTree.value != q.commit.tree then
        r == Refused("git_publication_tree_mismatch")
      else if (meta.message, meta.author, meta.committer) != (q.message, q.author, q.committer) then
        r == Refused("git_publication_metadata_mismatch")
      else meta != CommitMeta(q.author, q.committer, q.message, q.timestamp, q.timestamp, 0, 0) ==>
        r == Refused("git_publication_timestamp_mismatch")
  {
    if branch != q.branch {
      return Refused("git_publication_branch_mismatch");
    }
    if q.commit !in objects {
      return Refused("git_publication_commit_missing");
    }
    if !q.commit.CommitId? || |q.commit.parents| != 1 || q.commit.parents[0] != q.parent {
      return Refused("git_publication_commit_proof_invalid");
    }
    if q.expectedTree.Some? && q.commit.tree != q.expectedTree.value {
      return Refused("git_publication_tree_mismatch");
    }
    var meta := q.commit.meta;
    if meta.message != q.message || meta.author != q.author || meta.committer != q.committer {
      return Refused("git_publication_metadata_mismatch");
    }
    if meta.authorTime != q.timestamp || meta.commitTime != q.timestamp
      || meta.authorZone != 0 || meta.commitZone != 0 {
      return Refused("git_publication_timestamp_mismatch");
    }
    if q.commit.tree !in objects || q.parent !in objects {
      return Crashed;
    }
    if !q.commit.tree.TreeId? || !q.parent.CommitId? {
      return Refused("git_publication_parent_invalid");
    }
    if q.parent.tree !in objects {
      return Crashed;
    }
    if !q.parent.tree.TreeId? {
      return Refused("git_publication_parent_invalid");
    }
    var changes :- CheckChanges(objects, q.commit.tree, q.parent.tree, q.paths);
    return Ok(Proof(q.commit.tree, changes));
  }

  /** The blob that was recorded, with its contents. */
  predicate Sends(item: Row, sent: BlobToSend) {
    sent.path == item.path && sent.mode == item.mode && sent.id == item.candidateBlob == BlobId(sent.data)
  }

  /** `read_publication_objects`: proves the commit and returns the blobs of its recorded paths. */
  method ReadObjects(objects: set<Oid>, branch: string, q: ProofRequest)
    returns (r: Outcome<(Proof, seq<BlobToSend>)>)
    ensures r.Ok? <==> Proven(objects, branch, q)
    ensures r.Ok? ==> r.value.0 == Proof(q.commit.tree, WithoutBefore(q.paths)) && |r.value.1| == |q.paths|
    ensures r.Ok? ==> forall i :: 0 <= i < |q.paths| ==> Sends(q.paths[i], r.value.1[i])
  {
    var proof :- Revalidate(objects, branch, q);
    var blobs: seq<BlobToSend> := [];
    for i := 0 to |q.paths|
      invariant |blobs| == i
      invariant forall k :: 0 <= k < i ==> Sends(q.paths[k], blobs[k])
    {
      var path := q.paths[i].path;
      assert RecordedAt(objects, q.commit.tree, q.parent.tree, q.paths[i]);
      CompleteEntry(objects, q.commit.tree, path);
      var found := FindTreeEntry(objects, q.commit.tree, path);
      var e := found.value;
      blobs := blobs + [BlobToSend(path, e.mode, e.id.data, e.id)];
    }
    return Ok((proof, blobs));
  }

  // ---------------------------------------------------------------- reading it again

  /** What `publish` asks with the proof that the publication was prepared with. */
  function AskedAgain(c: Changeset, message: string, identity: string, timestamp: int, proof: Proof): ProofRequest {
    RequestFor(c, message, identity, timestamp, Some(proof.tree)).(paths := proof.changes)
  }

  /** The proof lacks what was there before each change, so it can be read again only if there was no change. */
  lemma ReadAgainIffEmpty(objects: set<Oid>, branch: string, q: ProofRequest)
    requires Proven(objects, branch, q)
    ensures Proven(objects, branch, q.(paths := WithoutBefore(q.paths), expectedTree := Some(q.commit.tree))) <==>
      q.paths == []
  {
    var rows := WithoutBefore(q.paths);
    if q.paths != [] {
      assert !RecordedAt(objects, q.commit.tree, q.parent.tree, rows[0]);
    } else {
      assert rows == q.paths;
    }
  }

  /** The request publication makes for an applied changeset. */
  function RequestFor(
      c: Changeset, message: string, identity: string, timestamp: int, expectedTree: Option<Oid>): ProofRequest
  {
    ProofRequest(c.expected, c.head, c.branch, message, identity, identity, timestamp,
      PreparedRows(c.paths), expectedTree)
  }

  /** Main result: a commit that `apply` produced is re-proved if and only if every prepared path
      really changed its blob. */
  lemma AppliedIsReproved(
      origin: set<Oid>, objects: set<Oid>, c: Changeset,
      message: string, identity: string, timestamp: int, expectedTree: Option<Oid>)
    requires PreparedAt(origin, c) && c.meta == MetaOf(message, identity, timestamp)
    requires origin <= objects && ObjectsPresent(objects, c)
    requires Complete(objects, c.head.tree) && Complete(objects, c.expected.tree)
    requires expectedTree.Some? ==> expectedTree.value == c.expected.tree
    ensures Proven(objects, c.branch, RequestFor(c, message, identity, timestamp, expectedTree)) <==>
      forall i :: 0 <= i < |c.paths| ==> c.paths[i].candidateBlob != c.paths[i].headBlob
  {
    var tree, parentTree := c.expected.tree, c.head.tree;
    forall p {
      RewrittenLeaf(origin, c, p);
    }
    forall i | 0 <= i < |c.paths|
      ensures RecordedAt(objects, tree, parentTree, PreparedRow(c.paths[i]))
    {
      PreparedLeaf(origin, c, i);
      RewrittenLeaf(origin, c, c.paths[i].path);
    }
    OnlyRecorded(c, tree, parentTree);
  }

  /** Prepared, applied and proved again in one go: with nothing missing below the head, what `apply` leaves is
      accepted if and only if every prepared path changed its blob.  What the proof records is never accepted again:
      `publish` asks with it and cannot get past this point. */
  method ApplyAndReprove(
      repo: Repository, candidates: seq<Candidate>, message: string, identity: string, timestamp: int, calm: bool)
    returns (prepared: Outcome<Changeset>, applied: Outcome<Oid>, proof: Outcome<Proof>)
    requires forall i, j :: 0 <= i < j < |candidates| ==> candidates[i].path != candidates[j].path
    requires repo.head.CommitId? && Complete(repo.store.objects, repo.head.tree)
    modifies repo, repo.store
    ensures prepared.Ok? && applied.Ok? ==>
      (proof.Ok? <==> forall i :: 0 <= i < |prepared.value.paths| ==>
                        prepared.value.paths[i].candidateBlob != prepared.value.paths[i].headBlob)
    ensures
      calm && CanPrepare(old(repo.store.objects), old(repo.head), old(repo.index), old(repo.worktree), candidates) ==>
      prepared.Ok? && applied.Ok?
    ensures proof.Ok? ==> prepared.Ok? && applied.Ok?
    ensures proof.Ok? ==>
      !Proven(repo.store.objects, repo.branch, AskedAgain(prepared.value, message, identity, timestamp, proof.value))
  {
    hide Complete, Proven, AllReady, PlanAll;
    applied, proof := Crashed, Crashed;
    prepared := repo.Prepare(candidates, message, identity, timestamp, calm);
    if !prepared.Ok? {
      return;
    }
    var c := prepared.value;
    ghost var origin := repo.store.objects;
    PlannedMatches(origin, c.head, c.index, repo.worktree, candidates, c);
    applied := repo.Apply(c, None, calm, origin);
    if !applied.Ok? {
      return;
    }
    ExpectedIsNew(origin, c);
    CompleteGrows(origin, repo.store.objects, c.head.tree);
    AppliedIsReproved(origin, repo.store.objects, c, message, identity, timestamp, None);
    var q := RequestFor(c, message, identity, timestamp, None);
    proof := Revalidate(repo.store.objects, repo.branch, q);
    if proof.Ok? {
      ReadAgainIffEmpty(repo.store.objects, repo.branch, q);
    }
  }

  /** Ready candidates agree with the working files they were read from. */
  lemma PlannedMatches(
      objects: set<Oid>, head: Oid, idx: Index, worktree: map<Path, WorkFile>, candidates: seq<Candidate>, c: Changeset)
    requires head.CommitId? && head.tree.TreeId? && AllReady(objects, head.tree, idx, worktree, candidates)
    requires c.paths == PlanAll(objects, head.tree, idx, worktree, candidates)
    ensures WorktreeMatches(worktree, c)
  {
    forall i | 0 <= i < |c.paths|
      ensures PathMatches(worktree, c.paths[i])
    {
      assert CandidateReady(objects, head.tree, idx, worktree, candidates[i]);
    }
  }

  lemma PreparedLeaf(origin: set<Oid>, c: Changeset, i: nat)
    requires PreparedAt(origin, c) && i < |c.paths|
    ensures PathPrepared(origin, c.head.tree, c.paths[i]) && c.paths[i].path != []
    ensures LeafAt(c.head.tree, c.paths[i].path) == Some(Entry(c.paths[i].mode, c.paths[i].headBlob))
    ensures c.paths[i].path in Replacements(c.paths)
    ensures Replacements(c.paths)[c.paths[i].path] == Entry(c.paths[i].mode, c.paths[i].candidateBlob)
  {
    hide TreeEntry, LeafAt, Rewrite, Replacements;
    ReplacementsAt(c.paths);
    PreparedPathResolves(origin, c.head.tree, c.paths[i]);
    ResolvedIsLeaf(origin, c.head.tree, c.paths[i].path);
  }

  lemma RewrittenLeaf(origin: set<Oid>, c: Changeset, p: Path)
    requires PreparedAt(origin, c)
    ensures c.expected.CommitId?
    ensures LeafAt(c.expected.tree, p) == LeafAfter(c, p)
  {
    PreparedResolves(origin, c.head.tree, c.paths);
    RewriteOverrides(origin, c.head.tree, Replacements(c.paths), [], c.expected.tree, p);
    assert [] + p == p;
    if p in Replacements(c.paths) {
      var i := ReplacementSource(c.paths, p);
      PreparedLeaf(origin, c, i);
    }
  }

  /** The head tree overridden by the changeset. */
  function LeafAfter(c: Changeset, p: Path): Option<Entry>
    requires c.head.CommitId?
  {
    if p in Replacements(c.paths) then Some(Replacements(c.paths)[p]) else LeafAt(c.head.tree, p)
  }

  lemma RowsOfReplacements(c: Changeset)
    requires Distinct(c.paths)
    ensures RecordedPaths(PreparedRows(c.paths)) == Replacements(c.paths).Keys
    ensures forall i :: 0 <= i < |c.paths| ==>
      c.paths[i].path in Replacements(c.paths)
      && Replacements(c.paths)[c.paths[i].path] == Entry(c.paths[i].mode, c.paths[i].candidateBlob)
  {
    hide Replacements;
    ReplacementsAt(c.paths);
    var rows := PreparedRows(c.paths);
    forall p
      ensures p in Replacements(c.paths) <==> p in RecordedPaths(rows)
    {
      if p in Replacements(c.paths) {
        var i := ReplacementSource(c.paths, p);
        assert rows[i].path == p;
      }
    }
  }

  lemma OnlyRecorded(c: Changeset, tree: Oid, parentTree: Oid)
    requires Distinct(c.paths) && c.head.CommitId? && parentTree == c.head.tree
    requires forall p :: LeafAt(tree, p) == LeafAfter(c, p)
    requires forall i :: 0 <= i < |c.paths| ==>
      LeafAt(tree, c.paths[i].path) == Some(Entry(c.paths[i].mode, c.paths[i].candidateBlob)) &&
      LeafAt(parentTree, c.paths[i].path) == Some(Entry(c.paths[i].mode, c.paths[i].headBlob))
    ensures DiffersExactlyAt(tree, parentTree, PreparedRows(c.paths)) <==>
      forall i :: 0 <= i < |c.paths| ==> c.paths[i].candidateBlob != c.paths[i].headBlob
  {
    hide LeafAt;
    var rows := PreparedRows(c.paths);
    RowsOfReplacements(c);
    if DiffersExactlyAt(tree, parentTree, rows) {
      forall i | 0 <= i < |c.paths|
        ensures c.paths[i].candidateBlob != c.paths[i].headBlob
      {
        assert rows[i].path in RecordedPaths(rows);
      }
    }
  }
}
