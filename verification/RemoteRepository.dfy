/** The GitHub side of a publication: what the adapter's calls can read, create and fail to do. */
module RemoteRepository {
  import opened Faults
  import opened Options

  type Sha = string
  type Ref = string

  /** How a call of the adapter ends: an operational error, or an answer. */
  datatype Answer<+T> = Raised | Answered(value: T)

  datatype Identity = Identity(name: string, email: string)
  datatype Stamp = Stamp(time: int, zone: int)
  datatype CommitData = CommitData(
    tree: Sha, parents: seq<Sha>, message: string,
    author: Identity, authored: Stamp, committer: Identity, committed: Stamp)
  datatype RemoteCommit = RemoteCommit(sha: Sha, data: CommitData)
  datatype PullRequest = PullRequest(
    number: nat, headSha: Sha, headRef: Ref, baseRef: Ref, title: string, body: string)
  datatype Entry = Entry(path: string, mode: nat, sha: Sha)

  /** How the server names what it is asked to store. */
  datatype Hashing = Hashing(blob: string -> Sha, tree: (Sha, seq<Entry>) -> Sha, commit: CommitData -> Sha)

  /** Blobs and trees map the id asked for to the id the answer carries. */
  datatype RemoteState = RemoteState(
    blobs: map<Sha, Sha>, trees: map<Sha, Sha>, commits: map<Sha, RemoteCommit>, refs: map<Ref, Sha>,
    prs: seq<PullRequest>)

  function Lookup<K, V>(m: map<K, V>, k: K): Option<V> {
    if k in m then Some(m[k]) else None
  }

  /** Storing under an id that is taken changes nothing. */
  function Put<K, V>(m: map<K, V>, k: K, v: V): map<K, V> {
    if k in m then m else m[k := v]
  }

  /** The first pull request for the pair, as the adapter picks it. */
  function FindPull(prs: seq<PullRequest>, head: Ref, base: Ref): Option<PullRequest> {
    if prs == [] then None
    else if prs[0].headRef == head && prs[0].baseRef == base then Some(prs[0])
    else FindPull(prs[1..], head, base)
  }

  predicate IsFor(pr: PullRequest, head: Ref, base: Ref) {
    pr.headRef == head && pr.baseRef == base
  }

  ghost predicate IsFirstFor(prs: seq<PullRequest>, i: nat, head: Ref, base: Ref) {
    i < |prs| && IsFor(prs[i], head, base) && forall j :: 0 <= j < i ==> !IsFor(prs[j], head, base)
  }

  /** What is found is the first one for the pair, and something is found if there is one. */
  lemma {:induction false} FindPullIsFirst(prs: seq<PullRequest>, head: Ref, base: Ref)
    ensures match FindPull(prs, head, base)
      case None => forall i :: 0 <= i < |prs| ==> !IsFor(prs[i], head, base)
      case Some(pr) => exists i: nat :: IsFirstFor(prs, i, head, base) && prs[i] == pr
  {
    if prs != [] && IsFor(prs[0], head, base) {
      assert IsFirstFor(prs, 0, head, base);
    } else if prs != [] {
      FindPullIsFirst(prs[1..], head, base);
      assert forall j :: 0 < j < |prs| ==> prs[j] == prs[1..][j - 1];
      if FindPull(prs, head, base).Some? {
        var i: nat :| IsFirstFor(prs[1..], i, head, base) && prs[1..][i] == FindPull(prs, head, base).value;
        assert IsFirstFor(prs, i + 1, head, base);
      }
    }
  }

  lemma {:induction false} FindPullAppended(prs: seq<PullRequest>, pr: PullRequest, head: Ref, base: Ref)
    ensures FindPull(prs + [pr], head, base) ==
      if FindPull(prs, head, base).Some? then FindPull(prs, head, base) else FindPull([pr], head, base)
  {
    if prs == [] {
      assert prs + [pr] == [pr];
    } else {
      FindPullAppended(prs[1..], pr, head, base);
      assert (prs + [pr])[1..] == prs[1..] + [pr];
    }
  }

  /** `_parse_commit`: anything but one parent, or an empty text, is an operational error. */
  predicate Readable(c: CommitData) {
    && |c.parents| == 1 && c.message != ""
    && c.author.name != "" && c.author.email != "" && c.committer.name != "" && c.committer.email != ""
  }

  /** Where " <" first occurs; the length if it does not. */
  function Partition(text: string): (i: nat)
    ensures i <= |text|
    ensures i < |text| ==> i + 2 <= |text| && text[i..i + 2] == " <"
  {
    if text == [] then 0
    else if |text| >= 2 && text[..2] == " <" then 0
    else
      var i := Partition(text[1..]);
      assert i < |text| - 1 ==> text[1..][i..i + 2] == text[1 + i..1 + i + 2];
      1 + i
  }

  /** `identity` of create_commit. */
  function Split(text: string): Identity {
    var i := Partition(text);
    var rest := if i < |text| then text[i + 2..] else "";
    var email := if rest != "" && rest[|rest| - 1] == '>' then rest[..|rest| - 1] else rest;
    Identity(text[..i], if email != "" then email else text[..i])
  }

  function Show(id: Identity): string {
    id.name + " <" + id.email + ">"
  }

  lemma {:induction false} PartitionAt(name: string, rest: string)
    requires forall i :: 0 <= i < |name| ==> name[i] != '<'
    ensures Partition(name + " <" + rest) == |name|
  {
    var text := name + " <" + rest;
    if name == "" {
      assert text[..2] == " <";
    } else {
      PartitionAt(name[1..], rest);
      assert text[1..] == name[1..] + " <" + rest;
      assert text[1] != '<' by {
        assert |name| > 1 ==> text[1] == name[1];
      }
      assert text[..2] != " <" by {
        assert text[..2][1] == text[1];
      }
    }
  }

  /** An identity with a name and an e-mail address is read back as it was sent. */
  lemma IdentityReadBack(name: string, email: string)
    requires email != "" && forall i :: 0 <= i < |name| ==> name[i] != '<'
    ensures Split(Show(Identity(name, email))) == Identity(name, email)
  {
    hide Partition;
    var rest := email + ">";
    var text := name + " <" + rest;
    assert text[..|name|] == name && text[|name| + 2..] == rest;
    assert Show(Identity(name, email)) == name + " <" + rest;
    PartitionAt(name, rest);
    assert rest[..|rest| - 1] == email;
  }

  /** A text without an address is taken for both name and address. */
  lemma {:induction false} NoAddress(text: string)
    requires forall i :: 0 <= i < |text| ==> text[i] != '<'
    ensures Split(text) == Identity(text, text)
  {
    NoPartition(text);
  }

  lemma {:induction false} NoPartition(text: string)
    requires forall i :: 0 <= i < |text| ==> text[i] != '<'
    ensures Partition(text) == |text|
  {
    if text != "" {
      NoPartition(text[1..]);
      assert |text| >= 2 ==> text[..2][1] == text[1];
    }
  }

  class Remote {
    const hashing: Hashing
    var s: RemoteState
    ghost var branchesMade: seq<(Ref, Option<Sha>, Sha)>  // the refs that calls of this adapter changed, from and to
    ghost var pullsMade: seq<PullRequest>

    constructor (hashing: Hashing, s: RemoteState)
      ensures this.hashing == hashing && this.s == s && branchesMade == [] && pullsMade == []
    {
      this.hashing, this.s := hashing, s;
      branchesMade, pullsMade := [], [];
    }

    // Reads: an operational error or the truth.

    method Blob(sha: Sha, calm: bool) returns (r: Answer<Option<Sha>>)
      ensures r.Answered? ==> r.value == Lookup(s.blobs, sha)
      ensures calm ==> r.Answered?
    {
      var fails := Mishap(calm);
      return if fails then Raised else Answered(Lookup(s.blobs, sha));
    }

    method Tree(sha: Sha, calm: bool) returns (r: Answer<Option<Sha>>)
      ensures r.Answered? ==> r.value == Lookup(s.trees, sha)
      ensures calm ==> r.Answered?
    {
      var fails := Mishap(calm);
      return if fails then Raised else Answered(Lookup(s.trees, sha));
    }

    method Commit(sha: Sha, calm: bool) returns (r: Answer<Option<RemoteCommit>>)
      ensures r.Answered? ==> r.value == Lookup(s.commits, sha)
      ensures r.Answered? && sha in s.commits ==> Readable(s.commits[sha].data)
      ensures calm && (sha in s.commits ==> Readable(s.commits[sha].data)) ==> r.Answered?
    {
      var fails := Mishap(calm);
      return if fails || (sha in s.commits && !Readable(s.commits[sha].data)) then Raised
             else Answered(Lookup(s.commits, sha));
    }

    method BaseRef(ref: Ref, calm: bool) returns (r: Answer<Sha>)
      ensures r.Answered? ==> ref in s.refs && r.value == s.refs[ref]
      ensures calm && ref in s.refs ==> r.Answered?
    {
      var fails := Mishap(calm);
      return if fails || ref !in s.refs then Raised else Answered(s.refs[ref]);
    }

    method BranchRef(ref: Ref, calm: bool) returns (r: Answer<Option<Sha>>)
      ensures r.Answered? ==> r.value == Lookup(s.refs, ref)
      ensures calm ==> r.Answered?
    {
      var fails := Mishap(calm);
      return if fails then Raised else Answered(Lookup(s.refs, ref));
    }

    method FindPullRequest(head: Ref, base: Ref, calm: bool) returns (r: Answer<Option<PullRequest>>)
      ensures r.Answered? ==> r.value == FindPull(s.prs, head, base)
      ensures calm ==> r.Answered?
    {
      var fails := Mishap(calm);
      return if fails then Raised else Answered(FindPull(s.prs, head, base));
    }

    // Creations: each may fail before or after it has taken effect.

    method CreateBlob(content: string, calm: bool) returns (r: Answer<Sha>)
      modifies this`s
      ensures var id := hashing.blob(content);
        && s in {old(s), old(s).(blobs := Put(old(s).blobs, id, id))}
        && (r.Answered? ==> r.value == id && s.blobs == Put(old(s).blobs, id, id))
        && (calm ==> r.Answered?)
    {
      var before := Mishap(calm);
      if before {
        return Raised;
      }
      var id := hashing.blob(content);
      s := s.(blobs := Put(s.blobs, id, id));
      var after := Mishap(calm);
      return if after then Raised else Answered(id);
    }

    method CreateTree(base: Sha, entries: seq<Entry>, calm: bool) returns (r: Answer<Sha>)
      modifies this`s
      ensures var id := hashing.tree(base, entries);
        && s in {old(s), old(s).(trees := Put(old(s).trees, id, id))}
        && (r.Answered? ==> r.value == id && s.trees == Put(old(s).trees, id, id))
      ensures r.Answered? ==> HasAll(old(s), base, entries)
      ensures calm && HasAll(old(s), base, entries) ==> r.Answered?
    {
      var before := Mishap(calm);
      if before || !HasAll(s, base, entries) {
        return Raised;
      }
      var id := hashing.tree(base, entries);
      s := s.(trees := Put(s.trees, id, id));
      var after := Mishap(calm);
      return if after then Raised else Answered(id);
    }

    method CreateCommit(data: CommitData, calm: bool) returns (r: Answer<RemoteCommit>)
      modifies this`s
      ensures var made := RemoteCommit(hashing.commit(data), data);
        && s in {old(s), old(s).(commits := Put(old(s).commits, made.sha, made))}
        && (r.Answered? ==> r.value == made && s.commits == Put(old(s).commits, made.sha, made) && Readable(data))
        && (r.Answered? ==> data.tree in old(s).trees && forall p :: p in data.parents ==> p in old(s).commits)
        && (calm && Readable(data) && data.tree in old(s).trees ==>
          (forall p :: p in data.parents ==> p in old(s).commits) ==> r.Answered?)
    {
      var before := Mishap(calm);
      if before || data.tree !in s.trees || !(forall p :: p in data.parents ==> p in s.commits) {
        return Raised;
      }
      var made := RemoteCommit(hashing.commit(data), data);
      s := s.(commits := Put(s.commits, made.sha, made));
      var after := Mishap(calm);
      return if after || !Readable(data) then Raised else Answered(made);
    }

    /** A ref that exists is never touched. */
    method CreateBranch(ref: Ref, sha: Sha, calm: bool) returns (r: Answer<Sha>)
      modifies this`s, this`branchesMade
      ensures s in {old(s), old(s).(refs := Put(old(s).refs, ref, sha))}
      ensures branchesMade == old(branchesMade) +
        if s.refs != old(s).refs then [(ref, Lookup(old(s).refs, ref), sha)] else []
      ensures r.Answered? ==>
        ref !in old(s).refs && sha in old(s).commits && r.value == sha && s.refs == old(s).refs[ref := sha]
      ensures calm && ref !in old(s).refs && sha in old(s).commits ==> r.Answered?
    {
      var before := Mishap(calm);
      if before || ref in s.refs || sha !in s.commits {
        return Raised;
      }
      s := s.(refs := s.refs[ref := sha]);
      branchesMade := branchesMade + [(ref, None, sha)];
      assert ref in s.refs && ref !in old(s).refs;
      var after := Mishap(calm);
      return if after then Raised else Answered(sha);
    }

    method CreatePullRequest(title: string, body: string, head: Ref, base: Ref, calm: bool)
      returns (r: Answer<PullRequest>)
      modifies this`s, this`pullsMade
      ensures s == old(s) || (head in old(s).refs && s == OpenPull(old(s), title, body, head, base))
      ensures pullsMade == old(pullsMade) + if s != old(s) then [s.prs[|old(s).prs|]] else []
      ensures r.Answered? ==> s != old(s) && base in old(s).refs && r.value == s.prs[|s.prs| - 1]
      ensures calm && head in old(s).refs && base in old(s).refs ==> r.Answered?
    {
      var before := Mishap(calm);
      if before || head !in s.refs || base !in s.refs {
        return Raised;
      }
      s := OpenPull(s, title, body, head, base);
      assert |s.prs| == |old(s).prs| + 1;
      pullsMade := pullsMade + [s.prs[|s.prs| - 1]];
      var after := Mishap(calm);
      return if after then Raised else Answered(s.prs[|s.prs| - 1]);
    }
  }

  /** What a tree is made of is there. */
  predicate HasAll(s: RemoteState, base: Sha, entries: seq<Entry>) {
    base in s.trees && forall i :: 0 <= i < |entries| ==> entries[i].sha in s.blobs
  }

  function OpenPull(s: RemoteState, title: string, body: string, head: Ref, base: Ref): RemoteState
    requires head in s.refs
  {
    s.(prs := s.prs + [PullRequest(|s.prs| + 1, s.refs[head], head, base, title, body)])
  }
}
