/** Preparing and applying one local commit changeset (git_changesets/local.py). */
module GitChangesets {
  import opened GitTrees
  import opened GitRewrite
  import opened GitStore
  import opened Faults
  import opened Options

  datatype Digest = Sha256(data: seq<byte>)

  /** A working file; `stat` stands for the times, inode, owner and size that the index records. */
  datatype WorkFile = WorkFile(mode: nat, data: seq<byte>, stat: nat)
  datatype IndexEntry = IndexEntry(mode: nat, id: Oid, stage: nat, stat: nat)
  type Index = map<Path, IndexEntry>

  datatype Candidate = Candidate(path: Path, preimage: Digest, candidate: Digest)
  datatype PreparedPath = PreparedPath(
    path: Path, preimage: Digest, candidate: Digest, mode: nat, headBlob: Oid, candidateBlob: Oid)

  /** The columns of a prepared action.  The index fingerprint hashes the whole index. */
  datatype Changeset = Changeset(
    branch: string, head: Oid, index: Index, paths: seq<PreparedPath>, meta: CommitMeta, expected: Oid)

  /** Author and committer are one identity, the time zone is UTC. */
  function MetaOf(message: string, identity: string, timestamp: int): CommitMeta {
    CommitMeta(identity, identity, message, timestamp, timestamp, 0, 0)
  }

  const MAX_WORKTREE_BYTES := 65_536
  const IDENTITY_MISMATCH := "git_commit_identity_mismatch"

  function Replacements(paths: seq<PreparedPath>): Changes {
    if paths == [] then map[]
    else
      var last := paths[|paths| - 1];
      Replacements(paths[..|paths| - 1])[last.path := Entry(last.mode, last.candidateBlob)]
  }

  lemma {:induction false} ReplacementsAt(paths: seq<PreparedPath>)
    requires Distinct(paths)
    ensures forall p :: p in Replacements(paths) <==> exists i :: 0 <= i < |paths| && paths[i].path == p
    ensures forall i :: 0 <= i < |paths| ==>
      paths[i].path in Replacements(paths) &&
      Replacements(paths)[paths[i].path] == Entry(paths[i].mode, paths[i].candidateBlob)
  {
    if paths != [] {
      var last := |paths| - 1;
      var shorter := paths[..last];
      ReplacementsAt(shorter);
      forall i | 0 <= i < |paths|
        ensures paths[i].path in Replacements(paths)
        ensures Replacements(paths)[paths[i].path] == Entry(paths[i].mode, paths[i].candidateBlob)
      {
        assert i < last ==> shorter[i] == paths[i];
      }
      forall p | p in Replacements(paths) && p != paths[last].path
        ensures exists i :: 0 <= i < |paths| && paths[i].path == p
      {
        assert p in Replacements(shorter);
        var i :| 0 <= i < |shorter| && shorter[i].path == p;
        assert paths[i].path == p;
      }
    }
  }

  lemma ReplacementSource(paths: seq<PreparedPath>, q: Path) returns (i: nat)
    requires Distinct(paths) && q in Replacements(paths)
    ensures i < |paths| && paths[i].path == q
    ensures Replacements(paths)[q] == Entry(paths[i].mode, paths[i].candidateBlob)
  {
    ReplacementsAt(paths);
    i :| 0 <= i < |paths| && paths[i].path == q;
  }

  predicate Distinct(paths: seq<PreparedPath>) {
    forall i, j :: 0 <= i < j < |paths| ==> paths[i].path != paths[j].path
  }

  /** One prepared path agrees with the head tree and its two hashes. */
  predicate PathPrepared(origin: set<Oid>, tree: Oid, pp: PreparedPath)
    requires tree.TreeId?
  {
    && TreeEntry(origin, tree, pp.path) == Ok(Entry(pp.mode, pp.headBlob))
    && pp.mode in REGULAR_MODES
    && pp.headBlob.BlobId? && pp.headBlob in origin && pp.preimage == Sha256(pp.headBlob.data)
    && pp.candidateBlob.BlobId? && pp.candidate == Sha256(pp.candidateBlob.data)
  }

  predicate IndexClean(idx: Index, path: Path, e: Entry) {
    path in idx && idx[path].id == e.id && idx[path].mode == e.mode && idx[path].stage == 0
  }

  predicate Readable(worktree: map<Path, WorkFile>, path: Path, mode: nat) {
    path in worktree && worktree[path].mode == mode &&
    |worktree[path].data| <= MAX_WORKTREE_BYTES && 0 !in worktree[path].data
  }

  predicate PathMatches(worktree: map<Path, WorkFile>, pp: PreparedPath) {
    Readable(worktree, pp.path, pp.mode) && Sha256(worktree[pp.path].data) == pp.candidate
  }

  /** The working files still have the content that was prepared. */
  predicate WorktreeMatches(worktree: map<Path, WorkFile>, c: Changeset) {
    forall i :: 0 <= i < |c.paths| ==> PathMatches(worktree, c.paths[i])
  }

  /** The first prepared path whose working file is not as prepared. */
  predicate FirstStale(worktree: map<Path, WorkFile>, c: Changeset, i: nat) {
    && i < |c.paths| && !PathMatches(worktree, c.paths[i])
    && forall k :: 0 <= k < i ==> PathMatches(worktree, c.paths[k])
  }

  /** What a working file that is not as prepared is refused for. */
  function WhyStale(worktree: map<Path, WorkFile>, pp: PreparedPath): string {
    if pp.path !in worktree then "outside_workspace_denied"
    else if !Readable(worktree, pp.path, pp.mode) then "git_worktree_unsupported"
    else "git_stale_worktree"
  }

  /** Some working file is not as prepared, and the first one says why. */
  ghost predicate StaleRefused<T(!new)>(worktree: map<Path, WorkFile>, c: Changeset, r: Outcome<T>) {
    forall i: nat :: FirstStale(worktree, c, i) ==> r == Refused(WhyStale(worktree, c.paths[i]))
  }

  lemma OnlyFirstStale(worktree: map<Path, WorkFile>, c: Changeset, i: nat)
    requires FirstStale(worktree, c, i)
    ensures forall j: nat :: FirstStale(worktree, c, j) ==> j == i
  {
  }

  lemma SomeIsFirstStale(worktree: map<Path, WorkFile>, c: Changeset) returns (i: nat)
    requires !WorktreeMatches(worktree, c)
    ensures FirstStale(worktree, c, i)
  {
    i := 0;
    while PathMatches(worktree, c.paths[i])
      invariant i < |c.paths| && forall k :: 0 <= k < i ==> PathMatches(worktree, c.paths[k])
      decreases |c.paths| - i
    {
      i := i + 1;
    }
  }

  /** What preparation established when the store was `origin`. */
  ghost predicate PreparedAt(origin: set<Oid>, c: Changeset) {
    && c.head in origin && c.head.CommitId? && c.head.tree in origin && c.head.tree.TreeId?
    && Distinct(c.paths)
    && (forall i :: 0 <= i < |c.paths| ==>
          PathPrepared(origin, c.head.tree, c.paths[i]) &&
          IndexClean(c.index, c.paths[i].path, Entry(c.paths[i].mode, c.paths[i].headBlob)))
    && Rewrite(origin, c.head.tree, Replacements(c.paths), []).Some?
    && c.expected == CommitId(Rewrite(origin, c.head.tree, Replacements(c.paths), []).value, [c.head], c.meta)
  }

  /** What an applied changeset leaves in the index: its entries, with the data of the working files. */
  ghost predicate IndexApplied(worktree: map<Path, WorkFile>, before: Index, after: Index, R: Changes) {
    && (forall p :: p in R ==>
      p in worktree && p in after && after[p] == IndexEntry(R[p].mode, R[p].id, 0, worktree[p].stat))
    && (forall p :: p !in R ==> (p in after <==> p in before))
    && (forall p :: p !in R && p in before ==> after[p] == before[p])
  }

  /** The changes already written while those to `pending` are not. */
  ghost function Without(R: Changes, pending: set<Path>): Changes {
    map p | p in R && p !in pending :: R[p]
  }

  lemma NothingWritten(worktree: map<Path, WorkFile>, idx: Index, R: Changes)
    ensures IndexApplied(worktree, idx, idx, Without(R, R.Keys)) && Without(R, {}) == R
  {
  }

  lemma OneWritten(
      worktree: map<Path, WorkFile>, idx: Index, written: Index, R: Changes, pending: set<Path>, p: Path)
    requires p in pending && p in R && p in worktree && IndexApplied(worktree, idx, written, Without(R, pending))
    ensures var entry := IndexEntry(R[p].mode, R[p].id, 0, worktree[p].stat);
      IndexApplied(worktree, idx, written[p := entry], Without(R, pending - {p}))
  {
  }

  predicate ObjectsPresent(objects: set<Oid>, c: Changeset) {
    && c.expected in objects && c.expected.CommitId? && c.expected.tree in objects
    && (forall i :: 0 <= i < |c.paths| ==> c.paths[i].candidateBlob in objects)
  }

  /** The conditions under which a candidate can be prepared at this head, index and worktree. */
  predicate CandidateReady(
      objects: set<Oid>, tree: Oid, idx: Index, worktree: map<Path, WorkFile>, item: Candidate)
    requires tree.TreeId?
  {
    var e := TreeEntry(objects, tree, item.path);
    e.Ok? && e.value.mode in REGULAR_MODES && IndexClean(idx, item.path, e.value) &&
    e.value.id in objects && e.value.id.BlobId? && Sha256(e.value.id.data) == item.preimage &&
    Readable(worktree, item.path, e.value.mode) && Sha256(worktree[item.path].data) == item.candidate
  }

  /** The path is a regular file of the head tree, present in the store, and the index holds that version. */
  predicate Tracked(objects: set<Oid>, tree: Oid, idx: Index, item: Candidate)
    requires tree.TreeId?
  {
    var e := TreeEntry(objects, tree, item.path);
    e.Ok? && IndexClean(idx, item.path, e.value) && e.value.mode in REGULAR_MODES
    && e.value.id in objects && e.value.id.BlobId?
  }

  lemma PreparedPathsAreRead(origin: set<Oid>, worktree: map<Path, WorkFile>, c: Changeset)
    requires PreparedAt(origin, c)
    ensures WorktreeMatches(worktree, c) ==> Replacements(c.paths).Keys <= worktree.Keys
  {
    ReplacementsAt(c.paths);
    forall p | WorktreeMatches(worktree, c) && p in Replacements(c.paths)
      ensures p in worktree
    {
      var i := ReplacementSource(c.paths, p);
      assert PathMatches(worktree, c.paths[i]);
    }
  }

  function Plan(
      objects: set<Oid>, tree: Oid, idx: Index, worktree: map<Path, WorkFile>, item: Candidate): PreparedPath
    requires tree.TreeId? && CandidateReady(objects, tree, idx, worktree, item)
  {
    var e := TreeEntry(objects, tree, item.path).value;
    PreparedPath(item.path, item.preimage, item.candidate, e.mode, e.id, BlobId(worktree[item.path].data))
  }

  predicate AllReady(
      objects: set<Oid>, tree: Oid, idx: Index, worktree: map<Path, WorkFile>, candidates: seq<Candidate>)
    requires tree.TreeId?
  {
    forall i :: 0 <= i < |candidates| ==> CandidateReady(objects, tree, idx, worktree, candidates[i])
  }

  function PlanAll(
      objects: set<Oid>, tree: Oid, idx: Index, worktree: map<Path, WorkFile>, candidates: seq<Candidate>)
    : (r: seq<PreparedPath>)
    requires tree.TreeId? && AllReady(objects, tree, idx, worktree, candidates)
    ensures |r| == |candidates|
    ensures forall i :: 0 <= i < |candidates| ==> r[i] == Plan(objects, tree, idx, worktree, candidates[i])
  {
    if candidates == [] then []
    else
      var n := |candidates| - 1;
      PlanAll(objects, tree, idx, worktree, candidates[..n]) + [Plan(objects, tree, idx, worktree, candidates[n])]
  }

  /** Prepared paths meet the assumptions of the tree rewrite results. */
  lemma PreparedResolves(objects: set<Oid>, tree: Oid, paths: seq<PreparedPath>)
    requires tree.TreeId? && Distinct(paths)
    requires forall i :: 0 <= i < |paths| ==> PathPrepared(objects, tree, paths[i])
    ensures Resolves(objects, tree, Replacements(paths), []) && FileModes(Replacements(paths))
    ensures ChangedBelow(Replacements(paths), []) || Replacements(paths) == map[]
  {
    var R, empty: Path := Replacements(paths), [];
    forall q | q in R
      ensures !IsDir(R[q].mode) && empty < q && FileResolves(objects, tree, q) && q[|empty|..] == q
    {
      var i := ReplacementSource(paths, q);
      PreparedPathResolves(objects, tree, paths[i]);
    }
    if R != map[] {
      var q :| q in R;
      assert empty < q;
    }
  }

  predicate FileResolves(objects: set<Oid>, tree: Oid, q: Path)
    requires tree.TreeId?
  {
    TreeEntry(objects, tree, q).Ok? && !IsDir(TreeEntry(objects, tree, q).value.mode)
  }

  lemma PreparedPathResolves(objects: set<Oid>, tree: Oid, pp: PreparedPath)
    requires tree.TreeId? && PathPrepared(objects, tree, pp)
    ensures pp.path != [] && !IsDir(pp.mode) && FileResolves(objects, tree, pp.path)
  {}

  predicate IsHead(objects: set<Oid>, head: Oid) {
    head in objects && head.CommitId? && head.tree in objects && head.tree.TreeId?
  }

  /** Preparation can succeed exactly under these conditions; the last one is the sibling-directory
      condition of the tree rewrite. */
  ghost predicate CanPrepare(
      objects: set<Oid>, head: Oid, idx: Index, worktree: map<Path, WorkFile>, candidates: seq<Candidate>)
  {
    && IsHead(objects, head)
    && candidates != []
    && AllReady(objects, head.tree, idx, worktree, candidates)
    && NamesAgree(head.tree, Replacements(PlanAll(objects, head.tree, idx, worktree, candidates)), [])
  }

  /** A changeset built from ready candidates is prepared. */
  lemma PlannedIsPrepared(
      objects: set<Oid>, worktree: map<Path, WorkFile>, candidates: seq<Candidate>, c: Changeset)
    requires c.head in objects && c.head.CommitId? && c.head.tree in objects && c.head.tree.TreeId?
    requires forall i, j :: 0 <= i < j < |candidates| ==> candidates[i].path != candidates[j].path
    requires AllReady(objects, c.head.tree, c.index, worktree, candidates)
    requires c.paths == PlanAll(objects, c.head.tree, c.index, worktree, candidates)
    ensures Distinct(c.paths) && WorktreeMatches(worktree, c)
    ensures Rewrite(objects, c.head.tree, Replacements(c.paths), []).Some? <==>
      NamesAgree(c.head.tree, Replacements(c.paths), [])
    ensures (Rewrite(objects, c.head.tree, Replacements(c.paths), []).Some? &&
      c.expected == CommitId(Rewrite(objects, c.head.tree, Replacements(c.paths), []).value, [c.head], c.meta))
      ==> PreparedAt(objects, c)
  {
    forall i | 0 <= i < |c.paths|
      ensures PathPrepared(objects, c.head.tree, c.paths[i])
      ensures IndexClean(c.index, c.paths[i].path, Entry(c.paths[i].mode, c.paths[i].headBlob))
    {
      assert CandidateReady(objects, c.head.tree, c.index, worktree, candidates[i]);
    }
    PreparedResolves(objects, c.head.tree, c.paths);
    RewriteReturnsIff(objects, c.head.tree, Replacements(c.paths), []);
  }

  lemma {:induction false} TreeEntryGrows(small: set<Oid>, big: set<Oid>, tree: Oid, p: Path)
    requires tree.TreeId? && small <= big && TreeEntry(small, tree, p).Ok?
    ensures TreeEntry(big, tree, p) == TreeEntry(small, tree, p)
    decreases |p|
  {
    if |p| > 1 {
      TreeEntryGrows(small, big, tree.entries[p[0]].id, p[1..]);
    }
  }

  datatype RepoState = RepoState(
    branch: string, head: Oid, index: Index, worktree: map<Path, WorkFile>, objects: set<Oid>, moves: seq<(Oid, Oid)>)

  /** Nothing below the new commit is missing when nothing below the head commit was. */
  ghost predicate TreesComplete(before: set<Oid>, after: set<Oid>, c: Changeset) {
    c.head.CommitId? && c.expected.CommitId? &&
    (Complete(before, c.head.tree) ==> Complete(after, c.expected.tree))
  }

  lemma ExpectedIsNew(origin: set<Oid>, c: Changeset)
    requires PreparedAt(origin, c)
    ensures c.expected != c.head
  {
    assert c.expected.parents[0] == c.head;
  }

  /** The branch update of one attempt, if it made one: nothing had gone stale since preparation. */
  ghost predicate MovedBranch(s0: RepoState, s1: RepoState, c: Changeset) {
    && s0.branch == c.branch && s0.index == c.index && WorktreeMatches(s0.worktree, c)
    && s1.moves == s0.moves + [(c.head, c.expected)]
    && s0.head == c.head && s1.head == c.expected
    && ObjectsPresent(s1.objects, c)
    && TreesComplete(s0.objects, s1.objects, c)
  }

  /** Every way one attempt of `apply` can end: the branch moves at most once, from the prepared head
      to the expected commit, and only if branch, index and working files are as prepared; the index
      is rewritten only with HEAD at the expected commit and only in the prepared entries; success
      means both are done; the identity error never occurs. */
  ghost predicate AttemptEnds(s0: RepoState, s1: RepoState, c: Changeset, raced: Option<Oid>, r: Outcome<Oid>) {
    var R := Replacements(c.paths);
    && s1.branch == s0.branch && s1.worktree == s0.worktree && s0.objects <= s1.objects
    && (s1.moves == s0.moves || MovedBranch(s0, s1, c))
    && (s1.moves == s0.moves ==> s1.head == s0.head || (s0.head == c.head && raced == Some(s1.head)))
    && (s1.index == s0.index || (s1.head == c.expected && IndexApplied(s0.worktree, s0.index, s1.index, R)))
    && (r.Ok? ==> r.value == s1.head == c.expected && IndexApplied(s0.worktree, s0.index, s1.index, R))
    && (r.Ok? ==> s0.head == c.expected || s1.moves != s0.moves)
    && (r.Ok? || s1.index != s0.index ==> s0.branch == c.branch && WorktreeMatches(s0.worktree, c))
    && (r.Refused? ==> r.code != IDENTITY_MISMATCH)
  }

  lemma NoRace(s0: RepoState, s1: RepoState, c: Changeset, raced: Option<Oid>, r: Outcome<Oid>)
    requires AttemptEnds(s0, s1, c, None, r)
    ensures AttemptEnds(s0, s1, c, raced, r)
    ensures r.Ok? ==> r.value == c.expected
  {
  }

  lemma NothingHappens(s: RepoState, c: Changeset, raced: Option<Oid>)
    ensures forall code :: code != IDENTITY_MISMATCH ==> AttemptEnds(s, s, c, raced, Refused(code))
  {
  }

  /** The repository is where preparation or a crash after the branch update left it, working files aside. */
  ghost predicate InPlace(s: RepoState, c: Changeset, origin: set<Oid>) {
    && origin <= s.objects && s.branch == c.branch
    && ((s.head == c.head && s.index == c.index) || (s.head == c.expected && ObjectsPresent(s.objects, c)))
  }

  /** The states from which an attempt without mishaps succeeds. */
  ghost predicate CanApply(s: RepoState, c: Changeset, origin: set<Oid>) {
    InPlace(s, c, origin) && WorktreeMatches(s.worktree, c)
  }

  /** Another process moved the branch away just before the compare-and-swap. */
  predicate LosesRace(s: RepoState, c: Changeset, raced: Option<Oid>) {
    s.head != c.expected && raced.Some? && raced.value != c.head
  }

  /** How an attempt without mishaps ends, by what it finds. */
  ghost predicate CalmEnds(s: RepoState, c: Changeset, raced: Option<Oid>, origin: set<Oid>, r: Outcome<Oid>) {
    && (s.branch != c.branch ==> r == Refused("git_stale_branch"))
    && (s.branch == c.branch && s.head !in {c.head, c.expected} ==> r == Refused("git_stale_head"))
    && (s.branch == c.branch && s.head == c.head && s.index != c.index ==> r == Refused("git_stale_index"))
    && (InPlace(s, c, origin) ==> StaleRefused(s.worktree, c, r))
    && (CanApply(s, c, origin) && LosesRace(s, c, raced) ==> r == Refused("git_stale_head"))
    && (CanApply(s, c, origin) && !LosesRace(s, c, raced) ==> r == Ok(c.expected))
  }

  class Repository {
    const store: ObjectStore
    var branch: string
    var head: Oid
    var index: Index
    var worktree: map<Path, WorkFile>
    ghost var moves: seq<(Oid, Oid)>  // branch updates made by this code

    constructor (store: ObjectStore, branch: string, head: Oid, index: Index, worktree: map<Path, WorkFile>)
      ensures this.store == store && this.branch == branch && this.head == head
      ensures this.index == index && this.worktree == worktree && moves == []
    {
      this.store, this.branch, this.head := store, branch, head;
      this.index, this.worktree, moves := index, worktree, [];
    }

    ghost function State(): RepoState
      reads this, store
    {
      RepoState(branch, head, index, worktree, store.objects, moves)
    }

    /** `_read_worktree`.  `calm` rules out the failures the model does not explain: refusals by the
        path policy, I/O errors and crashes. */
    method ReadWorktree(path: Path, mode: nat, calm: bool) returns (r: Outcome<seq<byte>>)
      ensures r.Ok? ==>
        path in worktree && worktree[path].mode == mode && |r.value| <= 65_536 && 0 !in r.value
        && r.value == worktree[path].data
      ensures calm && path !in worktree ==> r == Refused("outside_workspace_denied")
      ensures calm && path in worktree && !Readable(worktree, path, mode) ==> r == Refused("git_worktree_unsupported")
      ensures calm && Readable(worktree, path, mode) ==> r.Ok?
      ensures r.Refused? ==> r.code != IDENTITY_MISMATCH
    {
      var mishap := Mishap(calm);
      if mishap {
        return Refused("sensitive_path_denied");
      }
      if path !in worktree {
        return Refused("outside_workspace_denied");
      }
      var file := worktree[path];
      if !Readable(worktree, path, mode) {
        return Refused("git_worktree_unsupported");
      }
      return Ok(file.data);
    }

    /** The checks both preparation and application make on one path. */
    method CleanPath(tree: Oid, idx: Index, path: Path, dirty: string) returns (r: Outcome<Entry>)
      requires tree.TreeId? && dirty != IDENTITY_MISMATCH
      ensures r.Refused? ==> r.code != IDENTITY_MISMATCH
      ensures r.Ok? ==> TreeEntry(store.objects, tree, path) == r
      ensures var e := TreeEntry(store.objects, tree, path);
        && (r.Ok? <==> e.Ok? && path in idx && idx[path] == IndexEntry(e.value.mode, e.value.id, 0, idx[path].stat))
        && (!e.Ok? ==> r == e) && (e.Ok? && !r.Ok? ==> r == Refused(dirty))
    {
      r := FindTreeEntry(store.objects, tree, path);
      if r.Ok? {
        if !IndexClean(idx, path, r.value) {
          return Refused(dirty);
        }
      }
    }

    /** The loop body of `prepare`. */
    method PreparePath(tree: Oid, item: Candidate, calm: bool) returns (r: Outcome<PreparedPath>)
      requires tree.TreeId?
      ensures r.Ok? ==> CandidateReady(store.objects, tree, index, worktree, item)
      ensures r.Ok? ==> r.value == Plan(store.objects, tree, index, worktree, item)
      ensures calm && CandidateReady(store.objects, tree, index, worktree, item) ==> r.Ok?
      ensures var e := TreeEntry(store.objects, tree, item.path);
        && (e.Refused? ==> r == Refused(e.code))
        && (e.Ok? && !IndexClean(index, item.path, e.value) ==> r == Refused("git_index_target_dirty"))
        && (Tracked(store.objects, tree, index, item) && Sha256(e.value.id.data) != item.preimage ==>
          r == Refused("git_preexisting_target_dirty"))
      ensures calm && Tracked(store.objects, tree, index, item) ==>
        var e := TreeEntry(store.objects, tree, item.path).value;
        Sha256(e.id.data) == item.preimage && item.path in worktree && r.Refused? ==>
          r.code == if Readable(worktree, item.path, e.mode) then "git_stale_worktree" else "git_worktree_unsupported"
    {
      var entry :- CleanPath(tree, index, item.path, "git_index_target_dirty");
      if entry.mode !in REGULAR_MODES {
        return Refused("git_head_path_unsupported");
      }
      var old_blob := entry.id;
      if old_blob !in store.objects {
        return Crashed;
      }
      if !old_blob.BlobId? {
        return Refused("git_head_path_invalid");
      }
      if Sha256(old_blob.data) != item.preimage {
        return Refused("git_preexisting_target_dirty");
      }
      var current :- ReadWorktree(item.path, entry.mode, calm);
      if Sha256(current) != item.candidate {
        return Refused("git_stale_worktree");
      }
      return Ok(PreparedPath(item.path, item.preimage, item.candidate, entry.mode, old_blob, BlobId(current)));
    }

    /** The loop of `prepare`. */
    method PreparePaths(tree: Oid, candidates: seq<Candidate>, calm: bool) returns (r: Outcome<seq<PreparedPath>>)
      requires tree.TreeId?
      ensures r.Ok? ==> AllReady(store.objects, tree, index, worktree, candidates)
      ensures r.Ok? ==> r.value == PlanAll(store.objects, tree, index, worktree, candidates)
      ensures calm && AllReady(store.objects, tree, index, worktree, candidates) ==> r.Ok?
      ensures candidates == [] ==> r == Ok([])
    {
      hide CandidateReady, Plan;
      var prepared: seq<PreparedPath> := [];
      for i := 0 to |candidates|
        invariant AllReady(store.objects, tree, index, worktree, candidates[..i])
        invariant prepared == PlanAll(store.objects, tree, index, worktree, candidates[..i])
      {
        assert candidates[..i + 1][..i] == candidates[..i];
        var item :- PreparePath(tree, candidates[i], calm);
        prepared := prepared + [item];
      }
      assert candidates[..|candidates|] == candidates;
      return Ok(prepared);
    }

    /** `prepare` followed by `expected_commit_sha`: nothing is written.  The candidates come from
        the mutation log, one per path, already in path order. */
    method Prepare(candidates: seq<Candidate>, message: string, identity: string, timestamp: int, calm: bool)
      returns (r: Outcome<Changeset>)
      requires forall i, j :: 0 <= i < j < |candidates| ==> candidates[i].path != candidates[j].path
      modifies store
      ensures store.objects == old(store.objects)
      ensures r.Ok? ==> PreparedAt(store.objects, r.value)
      ensures r.Ok? ==> r.value.head == head && r.value.branch == branch && r.value.index == index
      ensures r.Ok? ==> r.value.meta == MetaOf(message, identity, timestamp)
      ensures r.Ok? ==> AllReady(store.objects, head.tree, index, worktree, candidates)
      ensures r.Ok? ==> r.value.paths == PlanAll(store.objects, head.tree, index, worktree, candidates)
      ensures r.Ok? ==> CanPrepare(store.objects, head, index, worktree, candidates)
      ensures calm && CanPrepare(store.objects, head, index, worktree, candidates) ==> r.Ok?
      ensures calm && !IsHead(store.objects, head) ==> r == Refused("git_head_invalid")
      ensures calm && IsHead(store.objects, head) && candidates == [] ==> r == Refused("git_diff_preview_too_large")
    {
      hide AllReady, PlanAll, Distinct, WorktreeMatches, PreparedAt, Rewrite;
      var mishap := Mishap(calm);
      if mishap {
        return Refused("git_repository_unsupported");
      }
      if head !in store.objects || !head.CommitId? || head.tree !in store.objects || !head.tree.TreeId? {
        return Refused("git_head_invalid");
      }
      var tree := head.tree;
      var prepared :- PreparePaths(tree, candidates, calm);
      if prepared == [] {
        return Refused("git_diff_preview_too_large");
      }
      mishap := Mishap(calm);
      if mishap {
        return Refused("git_diff_preview_too_large");
      }
      var new_tree := store.ReplaceTree(tree, Replacements(prepared), [], false);
      var meta := MetaOf(message, identity, timestamp);
      var id := if new_tree.Some? then CommitId(new_tree.value, [head], meta) else head;
      var c := Changeset(branch, head, index, prepared, meta, id);
      PlannedIsPrepared(store.objects, worktree, candidates, c);
      if new_tree.None? {
        return Crashed;
      }
      return Ok(c);
    }

    /** `_write_index_entries`: only the accepted entries change, in one atomic write. */
    method WriteIndexEntries(idx: Index, R: Changes, calm: bool) returns (r: Outcome<()>)
      modifies this`index
      ensures r.Ok? ==> IndexApplied(worktree, idx, index, R)
      ensures !r.Ok? ==> index == old(index)
      ensures calm && R.Keys <= worktree.Keys ==> r.Ok?
      ensures r.Refused? ==> r.code != IDENTITY_MISMATCH
    {
      hide IndexApplied, Without;
      var updated := idx;
      var pending := R.Keys;
      NothingWritten(worktree, idx, R);
      while pending != {}
        invariant pending <= R.Keys && index == old(index)
        invariant IndexApplied(worktree, idx, updated, Without(R, pending))
      {
        var path :| path in pending;
        if path !in worktree {
          return Refused("outside_workspace_denied");
        }
        OneWritten(worktree, idx, updated, R, pending, path);
        updated := updated[path := IndexEntry(R[path].mode, R[path].id, 0, worktree[path].stat)];
        pending := pending - {path};
      }
      var mishap := Mishap(calm);
      if mishap {
        return Crashed;
      }
      index := updated;
      return Ok(());
    }

    /** The recovery branch of `apply`: HEAD is already the expected commit. */
    method Recover(c: Changeset, calm: bool, ghost origin: set<Oid>) returns (r: Outcome<Oid>)
      requires PreparedAt(origin, c) && head == c.expected && branch == c.branch
      modifies this`index
      ensures AttemptEnds(old(State()), State(), c, None, r)
      ensures calm && ObjectsPresent(store.objects, c) && WorktreeMatches(worktree, c) ==> r == Ok(c.expected)
      ensures calm && ObjectsPresent(store.objects, c) ==> StaleRefused(worktree, c, r)
    {
      hide PreparedAt, PathPrepared, PathMatches, IndexApplied, ObjectsPresent, WhyStale;
      PreparedPathsAreRead(origin, worktree, c);
      var recovered :- RecoverBlobs(c, calm, origin);
      var _ :- WriteIndexEntries(index, recovered, calm);
      return Ok(c.expected);
    }

    /** One turn of the recovery loop. */
    method RecoverBlob(c: Changeset, i: nat, calm: bool, ghost origin: set<Oid>) returns (r: Outcome<Entry>)
      requires PreparedAt(origin, c) && i < |c.paths|
      ensures r.Ok? ==> r.value == Entry(c.paths[i].mode, c.paths[i].candidateBlob) && PathMatches(worktree, c.paths[i])
      ensures calm && ObjectsPresent(store.objects, c) && PathMatches(worktree, c.paths[i]) ==> r.Ok?
      ensures calm && !PathMatches(worktree, c.paths[i]) ==> r == Refused(WhyStale(worktree, c.paths[i]))
      ensures r.Refused? ==> r.code != IDENTITY_MISMATCH
    {
      var item := c.paths[i];
      assert PathPrepared(origin, c.head.tree, item);
      var raw :- ReadWorktree(item.path, item.mode, calm);
      if Sha256(raw) != item.candidate {
        return Refused("git_stale_worktree");
      }
      if item.candidateBlob !in store.objects {
        return Crashed;
      }
      if !item.candidateBlob.BlobId? || item.candidateBlob.data != raw {
        return Refused("git_commit_recovery_invalid");
      }
      return Ok(Entry(item.mode, item.candidateBlob));
    }

    /** The loop of the recovery branch. */
    method RecoverBlobs(c: Changeset, calm: bool, ghost origin: set<Oid>) returns (r: Outcome<Changes>)
      requires PreparedAt(origin, c)
      ensures r.Ok? ==> r.value == Replacements(c.paths) && WorktreeMatches(worktree, c)
      ensures calm && ObjectsPresent(store.objects, c) && WorktreeMatches(worktree, c) ==> r.Ok?
      ensures calm && ObjectsPresent(store.objects, c) ==> StaleRefused(worktree, c, r)
      ensures r.Refused? ==> r.code != IDENTITY_MISMATCH
    {
      hide PreparedAt, ObjectsPresent, PathMatches, WhyStale;
      var recovered: Changes := map[];
      for i := 0 to |c.paths|
        invariant recovered == Replacements(c.paths[..i])
        invariant forall k :: 0 <= k < i ==> PathMatches(worktree, c.paths[k])
      {
        if !PathMatches(worktree, c.paths[i]) {
          OnlyFirstStale(worktree, c, i);
        }
        var entry :- RecoverBlob(c, i, calm, origin);
        recovered := recovered[c.paths[i].path := entry];
        assert c.paths[..i + 1][..i] == c.paths[..i];
      }
      assert c.paths[..|c.paths|] == c.paths;
      return Ok(recovered);
    }

    /** `apply`.  Each `Mishap` is a crash or an exception outside the expected refusals; `raced` is
        the branch value another process writes just before the compare-and-swap, if any.
        `origin` is the object store as preparation saw it. */
    method Apply(c: Changeset, raced: Option<Oid>, calm: bool, ghost origin: set<Oid>) returns (r: Outcome<Oid>)
      requires PreparedAt(origin, c)
      modifies this, store
      ensures AttemptEnds(old(State()), State(), c, raced, r)
      ensures calm ==> CalmEnds(old(State()), c, raced, origin, r)
      ensures r.Ok? ==> r.value == c.expected
    {
      hide PreparedAt, AttemptEnds, WorktreeMatches, ObjectsPresent, FirstStale;
      ExpectedIsNew(origin, c);
      NothingHappens(State(), c, raced);
      var mishap := Mishap(calm);
      if mishap {
        return Refused("git_repository_unsupported");
      }
      if branch != c.branch {
        return Refused("git_stale_branch");
      }
      if head == c.expected {
        r := Recover(c, calm, origin);
        NoRace(old(State()), State(), c, raced, r);
        return;
      }
      if head != c.head {
        return Refused("git_stale_head");
      }
      if index != c.index {
        return Refused("git_stale_index");
      }
      r := Create(c, raced, calm, origin);
    }

    /** The creating branch of `apply`: objects first, then the branch, then the index. */
    method Create(c: Changeset, raced: Option<Oid>, calm: bool, ghost origin: set<Oid>) returns (r: Outcome<Oid>)
      requires PreparedAt(origin, c) && branch == c.branch && head == c.head && index == c.index
      modifies this`head, this`index, this`moves, store
      ensures AttemptEnds(old(State()), State(), c, raced, r)
      ensures calm && origin <= old(store.objects) && WorktreeMatches(worktree, c) ==>
        r == if raced.Some? && raced.value != c.head then Refused("git_stale_head") else Ok(c.expected)
      ensures calm && origin <= old(store.objects) ==> StaleRefused(worktree, c, r)
      ensures r.Ok? ==> r.value == c.expected
    {
      hide PreparedAt, PathMatches, IndexApplied, WhyStale;
      ghost var s0 := State();
      var replacements :- BuildObjects(c, calm, origin);
      r := Land(c, replacements, raced, calm, s0);
    }

    /** Blobs, then rebuilt trees, then the commit; the branch and the index are not touched. */
    method BuildObjects(c: Changeset, calm: bool, ghost origin: set<Oid>) returns (r: Outcome<Changes>)
      requires PreparedAt(origin, c) && head == c.head && index == c.index
      modifies store
      ensures old(store.objects) <= store.objects
      ensures r.Ok? ==> r.value == Replacements(c.paths) && ObjectsPresent(store.objects, c)
      ensures r.Ok? ==> WorktreeMatches(worktree, c)
      ensures r.Ok? ==> TreesComplete(old(store.objects), store.objects, c)
      ensures r.Refused? ==> r.code != IDENTITY_MISMATCH
      ensures calm && origin <= old(store.objects) && WorktreeMatches(worktree, c) ==>
        r.Ok? && r.value.Keys <= worktree.Keys
      ensures calm && origin <= old(store.objects) ==> StaleRefused(worktree, c, r)
    {
      var base := head;
      if base !in store.objects || base.tree !in store.objects {
        return Crashed;
      }
      var replacements :- StoreBlobs(c, index, calm, origin);
      CompleteGrows(old(store.objects), store.objects, base.tree);
      var new_tree :- BuildTree(c, replacements, calm, origin);
      var commit := CommitId(new_tree, [base], c.meta);
      CompleteGrows(store.objects, store.objects + {commit}, new_tree);
      store.objects := store.objects + {commit};
      if commit != c.expected {
        return Refused(IDENTITY_MISMATCH);
      }
      ReplacementsAt(c.paths);
      return Ok(replacements);
    }

    /** The end of `apply`: the compare-and-swap of the branch, then the index. */
    method Land(c: Changeset, R: Changes, raced: Option<Oid>, calm: bool, ghost s0: RepoState) returns (r: Outcome<Oid>)
      requires branch == c.branch && head == c.head && index == c.index && WorktreeMatches(worktree, c)
      requires R == Replacements(c.paths) && ObjectsPresent(store.objects, c)
      requires State() == s0.(objects := store.objects) && s0.objects <= store.objects
      requires TreesComplete(s0.objects, store.objects, c)
      modifies this`head, this`index, this`moves
      ensures AttemptEnds(s0, State(), c, raced, r)
      ensures calm && R.Keys <= worktree.Keys ==>
        r == if raced.Some? && raced.value != c.head then Refused("git_stale_head") else Ok(c.expected)
    {
      var base := head;
      var mishap := Mishap(calm);
      if mishap {
        return Crashed;
      }
      if raced.Some? {
        head := raced.value;
      }
      if head != base {
        return Refused("git_stale_head");
      }
      head := c.expected;
      moves := moves + [(base, c.expected)];
      mishap := Mishap(calm);
      if mishap {
        return Crashed;
      }
      var _ :- WriteIndexEntries(index, R, calm);
      return Ok(c.expected);
    }

    /** The rewrite inside `apply`, run on a store that may have changed since preparation. */
    method BuildTree(c: Changeset, R: Changes, calm: bool, ghost origin: set<Oid>) returns (r: Outcome<Oid>)
      requires PreparedAt(origin, c) && R == Replacements(c.paths)
      modifies store
      ensures old(store.objects) <= store.objects
      ensures r.Ok? ==> c.expected == CommitId(r.value, [c.head], c.meta) && r.value in store.objects
      ensures r.Ok? && Complete(old(store.objects), c.head.tree) ==> Complete(store.objects, r.value)
      ensures !r.Refused?
      ensures calm && origin <= old(store.objects) ==> r.Ok?
    {
      var mishap := Mishap(calm);
      if mishap {
        return Crashed;
      }
      if origin <= store.objects {
        RewriteStable(origin, store.objects, c.head.tree, R, []);
      }
      var new_tree := store.ReplaceTree(c.head.tree, R, [], true);
      if new_tree.None? {
        return Crashed;
      }
      RewriteIndependentOfStore(origin, store.objects, c.head.tree, R);
      PreparedResolves(origin, c.head.tree, c.paths);
      return Ok(new_tree.value);
    }

    /** One path, checked again against tree, index and working file. */
    method RecheckPath(c: Changeset, i: nat, idx: Index, calm: bool, ghost origin: set<Oid>) returns (r: Outcome<Oid>)
      requires PreparedAt(origin, c) && i < |c.paths|
      ensures r.Ok? ==> r.value == c.paths[i].candidateBlob && PathMatches(worktree, c.paths[i])
      ensures r.Ok? ==> IndexClean(idx, c.paths[i].path, Entry(c.paths[i].mode, c.paths[i].headBlob))
      ensures r.Ok? ==>
        TreeEntry(store.objects, c.head.tree, c.paths[i].path) == Ok(Entry(c.paths[i].mode, c.paths[i].headBlob))
      ensures calm && origin <= store.objects && idx == c.index && PathMatches(worktree, c.paths[i]) ==> r.Ok?
      ensures calm && origin <= store.objects && idx == c.index && !PathMatches(worktree, c.paths[i]) ==>
        r == Refused(WhyStale(worktree, c.paths[i]))
      ensures r.Refused? ==> r.code != IDENTITY_MISMATCH
    {
      var item := c.paths[i];
      assert PathPrepared(origin, c.head.tree, item);
      if origin <= store.objects {
        TreeEntryGrows(origin, store.objects, c.head.tree, item.path);
      }
      var old_entry :- CleanPath(c.head.tree, idx, item.path, "git_stale_index");
      if old_entry.mode != item.mode || old_entry.id != item.headBlob {
        return Refused("git_stale_path");
      }
      var raw :- ReadWorktree(item.path, item.mode, calm);
      if Sha256(raw) != item.candidate {
        return Refused("git_stale_worktree");
      }
      return Ok(BlobId(raw));
    }

    /** The loop of `apply` that re-checks every path and writes its candidate blob. */
    method StoreBlobs(c: Changeset, idx: Index, calm: bool, ghost origin: set<Oid>) returns (r: Outcome<Changes>)
      requires PreparedAt(origin, c)
      modifies store
      ensures old(store.objects) <= store.objects
      ensures r.Ok? ==> r.value == Replacements(c.paths) && WorktreeMatches(worktree, c)
      ensures r.Ok? ==> forall i :: 0 <= i < |c.paths| ==> c.paths[i].candidateBlob in store.objects
      ensures calm && origin <= old(store.objects) && idx == c.index && WorktreeMatches(worktree, c) ==> r.Ok?
      ensures calm && origin <= old(store.objects) && idx == c.index ==> StaleRefused(worktree, c, r)
      ensures r.Refused? ==> r.code != IDENTITY_MISMATCH
    {
      hide PathMatches, IndexClean, PreparedAt, WhyStale;
      var replacements: Changes := map[];
      for i := 0 to |c.paths|
        invariant old(store.objects) <= store.objects
        invariant replacements == Replacements(c.paths[..i])
        invariant forall k :: 0 <= k < i ==> PathMatches(worktree, c.paths[k])
        invariant forall k :: 0 <= k < i ==> c.paths[k].candidateBlob in store.objects
      {
        var item := c.paths[i];
        if !PathMatches(worktree, c.paths[i]) {
          OnlyFirstStale(worktree, c, i);
        }
        var blob :- RecheckPath(c, i, idx, calm, origin);
        store.objects := store.objects + {blob};
        var mishap := Mishap(calm);
        if mishap {
          return Crashed;
        }
        replacements := replacements[item.path := Entry(item.mode, blob)];
        assert c.paths[..i + 1][..i] == c.paths[..i];
      }
      assert c.paths[..|c.paths|] == c.paths;
      return Ok(replacements);
    }
  }
}
