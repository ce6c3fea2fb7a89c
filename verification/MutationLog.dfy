/** Collapsing the log of approved mutations into one change per path (`_mutations` of
    git_changesets/service.py), against replaying the interleaved log. */
module MutationLog {
  import opened GitTrees
  import opened GitChangesets
  import opened Options

  /** One governed edit; `evidence` is the check on its status, step, fingerprint and hashes. */
  datatype ToolCall = ToolCall(path: Path, preimage: Digest, candidate: Digest, evidence: bool)

  /** The calls on one path, in log order. */
  function CallsOn(rows: seq<ToolCall>, p: Path): (r: seq<ToolCall>)
    ensures |r| <= |rows|
  {
    if rows == [] then []
    else
      var last := rows[|rows| - 1];
      CallsOn(rows[..|rows| - 1], p) + if last.path == p then [last] else []
  }

  predicate AllEvidenced(rows: seq<ToolCall>) {
    forall i :: 0 <= i < |rows| ==> rows[i].evidence
  }

  predicate Chained(calls: seq<ToolCall>) {
    forall i :: 0 <= i < |calls| - 1 ==> calls[i].candidate == calls[i + 1].preimage
  }

  /** The state each path must start in: the preimage of its first call. */
  function FirstPreimages(rows: seq<ToolCall>): map<Path, Digest> {
    if rows == [] then map[]
    else
      var before, last := FirstPreimages(rows[..|rows| - 1]), rows[|rows| - 1];
      if last.path in before then before else before[last.path := last.preimage]
  }

  /** Running the whole log on a workspace; `None` when some call finds a different content. */
  function Replay(start: map<Path, Digest>, rows: seq<ToolCall>): Option<map<Path, Digest>> {
    if rows == [] then Some(start)
    else
      var last := rows[|rows| - 1];
      match Replay(start, rows[..|rows| - 1])
      case None => None
      case Some(state) =>
        if last.path in state && state[last.path] == last.preimage
        then Some(state[last.path := last.candidate])
        else None
  }

  lemma {:induction false} FirstPreimagesByPath(rows: seq<ToolCall>)
    ensures forall p :: p in FirstPreimages(rows) <==> CallsOn(rows, p) != []
    ensures forall p :: p in FirstPreimages(rows) ==> FirstPreimages(rows)[p] == CallsOn(rows, p)[0].preimage
  {
    if rows != [] {
      FirstPreimagesByPath(rows[..|rows| - 1]);
    }
  }

  /** The content of one path after its calls. */
  function EndOf(calls: seq<ToolCall>, start: Digest): Digest {
    if calls == [] then start else calls[|calls| - 1].candidate
  }

  /** A clean replay leaves each path where its last call left it. */
  lemma {:induction false} ReplayEnd(start: map<Path, Digest>, rows: seq<ToolCall>, p: Path)
    requires Replay(start, rows).Some? && p in start
    ensures p in Replay(start, rows).value
    ensures Replay(start, rows).value[p] == EndOf(CallsOn(rows, p), start[p])
  {
    if rows != [] {
      ReplayEnd(start, rows[..|rows| - 1], p);
    }
  }

  lemma {:induction false} ReplayKeys(start: map<Path, Digest>, rows: seq<ToolCall>)
    requires Replay(start, rows).Some?
    ensures Replay(start, rows).value.Keys == start.Keys
  {
    if rows != [] {
      ReplayKeys(start, rows[..|rows| - 1]);
    }
  }

  lemma {:induction false} ReplayedIsChained(start: map<Path, Digest>, rows: seq<ToolCall>, p: Path)
    requires Replay(start, rows).Some?
    ensures Chained(CallsOn(rows, p))
  {
    if rows != [] {
      var before, last := rows[..|rows| - 1], rows[|rows| - 1];
      ReplayedIsChained(start, before, p);
      if last.path == p {
        ReplayKeys(start, before);
        ReplayEnd(start, before, p);
      }
    }
  }

  predicate StartsRight(start: map<Path, Digest>, calls: seq<ToolCall>, p: Path) {
    calls != [] ==> p in start && start[p] == calls[0].preimage
  }

  lemma {:induction false} ChainedReplays(start: map<Path, Digest>, rows: seq<ToolCall>)
    requires forall p :: StartsRight(start, CallsOn(rows, p), p) && Chained(CallsOn(rows, p))
    ensures Replay(start, rows).Some?
  {
    if rows != [] {
      var before, last := rows[..|rows| - 1], rows[|rows| - 1];
      forall p
        ensures StartsRight(start, CallsOn(before, p), p) && Chained(CallsOn(before, p))
      {
        ShorterChain(start, rows, p);
      }
      ChainedReplays(start, before);
      var calls, all := CallsOn(before, last.path), CallsOn(rows, last.path);
      assert all == calls + [last] && StartsRight(start, all, last.path) && Chained(all);
      ReplayEnd(start, before, last.path);
      if calls != [] {
        assert all[|calls| - 1].candidate == all[|calls|].preimage;
      }
    }
  }

  lemma ShorterChain(start: map<Path, Digest>, rows: seq<ToolCall>, p: Path)
    requires rows != []
    requires StartsRight(start, CallsOn(rows, p), p) && Chained(CallsOn(rows, p))
    ensures var before := CallsOn(rows[..|rows| - 1], p);
      StartsRight(start, before, p) && Chained(before)
  {
    var before, all := CallsOn(rows[..|rows| - 1], p), CallsOn(rows, p);
    assert before <= all;
    forall i | 0 <= i < |before| - 1
      ensures before[i].candidate == before[i + 1].preimage
    {
      assert all[i].candidate == all[i + 1].preimage;
    }
  }

  ghost predicate AllChained(rows: seq<ToolCall>) {
    forall p :: Chained(CallsOn(rows, p))
  }

  /** Replaying from the first preimages succeeds exactly when the calls of each path chain up. */
  lemma ReplayIffChained(rows: seq<ToolCall>)
    ensures Replay(FirstPreimages(rows), rows).Some? <==> AllChained(rows)
  {
    var start := FirstPreimages(rows);
    FirstPreimagesByPath(rows);
    if Replay(start, rows).Some? {
      forall p {
        ReplayedIsChained(start, rows, p);
      }
    } else if AllChained(rows) {
      forall p
        ensures StartsRight(start, CallsOn(rows, p), p) && Chained(CallsOn(rows, p))
      {}
      ChainedReplays(start, rows);
    }
  }

  /** The collapsed change of one path is the start and the end of the replay. */
  lemma CollapsedPair(rows: seq<ToolCall>, p: Path)
    requires Replay(FirstPreimages(rows), rows).Some? && CallsOn(rows, p) != []
    ensures p in FirstPreimages(rows) && p in Replay(FirstPreimages(rows), rows).value
    ensures FirstPreimages(rows)[p] == CallsOn(rows, p)[0].preimage
    ensures Replay(FirstPreimages(rows), rows).value[p] == CallsOn(rows, p)[|CallsOn(rows, p)| - 1].candidate
  {
    hide CallsOn, Replay, FirstPreimages;
    FirstPreimagesByPath(rows);
    ReplayEnd(FirstPreimages(rows), rows, p);
  }

  /** The dictionary the first loop builds, and its keys in insertion order. */
  function Grouped(rows: seq<ToolCall>): map<Path, seq<ToolCall>> {
    if rows == [] then map[]
    else
      var before, last := Grouped(rows[..|rows| - 1]), rows[|rows| - 1];
      if last.path in before then before[last.path := before[last.path] + [last]]
      else before[last.path := [last]]
  }

  function FirstSeen(rows: seq<ToolCall>): seq<Path> {
    if rows == [] then []
    else
      var before, last := FirstSeen(rows[..|rows| - 1]), rows[|rows| - 1];
      if last.path in before then before else before + [last.path]
  }

  lemma {:induction false} GroupedIsCallsOn(rows: seq<ToolCall>, p: Path)
    ensures p in Grouped(rows) <==> CallsOn(rows, p) != []
    ensures p in Grouped(rows) ==> Grouped(rows)[p] == CallsOn(rows, p)
    ensures p in Grouped(rows) <==> p in FirstSeen(rows)
  {
    if rows != [] {
      GroupedIsCallsOn(rows[..|rows| - 1], p);
      GroupedIsCallsOn(rows[..|rows| - 1], rows[|rows| - 1].path);
    }
  }

  lemma {:induction false} FirstSeenDistinct(rows: seq<ToolCall>)
    ensures forall a, b :: 0 <= a < b < |FirstSeen(rows)| ==> FirstSeen(rows)[a] != FirstSeen(rows)[b]
  {
    if rows != [] {
      FirstSeenDistinct(rows[..|rows| - 1]);
    }
  }

  method Group(rows: seq<ToolCall>) returns (keys: seq<Path>, grouped: map<Path, seq<ToolCall>>)
    ensures keys == FirstSeen(rows) && grouped == Grouped(rows)
  {
    keys, grouped := [], map[];
    for i := 0 to |rows|
      invariant keys == FirstSeen(rows[..i]) && grouped == Grouped(rows[..i])
    {
      var call := rows[i];
      assert rows[..i + 1][..i] == rows[..i];
      GroupedIsCallsOn(rows[..i], call.path);
      if call.path in grouped {
        grouped := grouped[call.path := grouped[call.path] + [call]];
      } else {
        grouped := grouped[call.path := [call]];
        keys := keys + [call.path];
      }
    }
    assert rows[..|rows|] == rows;
  }

  /** Row `i` is the first on its path. */
  predicate IsFirstOn(rows: seq<ToolCall>, i: nat) {
    i < |rows| && forall m :: 0 <= m < i ==> rows[m].path != rows[i].path
  }

  lemma IsFirstStays(front: seq<ToolCall>, last: ToolCall, i: nat)
    requires IsFirstOn(front, i)
    ensures IsFirstOn(front + [last], i) && (front + [last])[i] == front[i]
  {
  }

  lemma {:induction false} SeenAll(rows: seq<ToolCall>, i: nat)
    requires i < |rows|
    ensures rows[i].path in FirstSeen(rows)
  {
    if i < |rows| - 1 {
      SeenAll(rows[..|rows| - 1], i);
    }
  }

  predicate AreFirst(rows: seq<ToolCall>, at: seq<nat>, paths: seq<Path>) {
    && |at| == |paths|
    && (forall k :: 0 <= k < |at| ==> IsFirstOn(rows, at[k]) && rows[at[k]].path == paths[k])
    && (forall j, k :: 0 <= j < k < |at| ==> at[j] < at[k])
  }

  lemma AreFirstStays(front: seq<ToolCall>, last: ToolCall, at: seq<nat>, paths: seq<Path>)
    requires AreFirst(front, at, paths)
    ensures AreFirst(front + [last], at, paths)
    ensures (forall m :: 0 <= m < |front| ==> front[m].path != last.path) ==>
      AreFirst(front + [last], at + [|front|], paths + [last.path])
  {
    forall k | 0 <= k < |at|
      ensures IsFirstOn(front + [last], at[k]) && (front + [last])[at[k]].path == paths[k] && at[k] < |front|
    {
      IsFirstStays(front, last, at[k]);
    }
    if forall m :: 0 <= m < |front| ==> front[m].path != last.path {
      assert IsFirstOn(front + [last], |front|);
    }
    hide IsFirstOn;
  }

  /** Paths come in the order of their first rows. */
  lemma {:induction false} SeenInOrder(rows: seq<ToolCall>) returns (at: seq<nat>)
    ensures AreFirst(rows, at, FirstSeen(rows))
  {
    at := [];
    if rows != [] {
      var n := |rows| - 1;
      at := SeenInOrder(rows[..n]);
      assert rows == rows[..n] + [rows[n]];
      AreFirstStays(rows[..n], rows[n], at, FirstSeen(rows[..n]));
      if rows[n].path !in FirstSeen(rows[..n]) {
        forall m | 0 <= m < n
          ensures rows[..n][m].path != rows[n].path
        {
          SeenAll(rows[..n], m);
        }
        at := at + [n];
      }
      hide AreFirst;
    }
  }

  method IsChained(calls: seq<ToolCall>) returns (ok: bool)
    ensures ok == Chained(calls)
  {
    var j := 1;
    while j < |calls|
      invariant forall m :: 0 <= m < j - 1 && m + 1 < |calls| ==> calls[m].candidate == calls[m + 1].preimage
    {
      if calls[j - 1].candidate != calls[j].preimage {
        return false;
      }
      j := j + 1;
    }
    return true;
  }

  /** The change that a clean replay makes to one path. */
  ghost predicate IsNetChange(rows: seq<ToolCall>, c: Candidate) {
    var start := FirstPreimages(rows);
    Replay(start, rows).Some? && c.path in start && c.path in Replay(start, rows).value &&
    c.preimage == start[c.path] && c.candidate == Replay(start, rows).value[c.path]
  }

  /** First preimage and last candidate of the calls on a path. */
  function Pair(rows: seq<ToolCall>, p: Path): Candidate
    requires CallsOn(rows, p) != []
  {
    var calls := CallsOn(rows, p);
    Candidate(p, calls[0].preimage, calls[|calls| - 1].candidate)
  }

  /** The loop over the groups. */
  method CollapseGroups(rows: seq<ToolCall>, keys: seq<Path>, grouped: map<Path, seq<ToolCall>>)
    returns (r: Option<seq<Candidate>>)
    requires keys == FirstSeen(rows) && grouped == Grouped(rows)
    ensures r.Some? ==> |r.value| == |keys| && forall k :: 0 <= k < |keys| ==>
      CallsOn(rows, keys[k]) != [] && Chained(CallsOn(rows, keys[k])) && r.value[k] == Pair(rows, keys[k])
    ensures r.None? ==> !AllChained(rows)
  {
    hide CallsOn, Grouped, FirstSeen, Chained;
    var candidates: seq<Candidate> := [];
    for k := 0 to |keys|
      invariant |candidates| == k
      invariant forall j :: 0 <= j < k ==>
        CallsOn(rows, keys[j]) != [] && Chained(CallsOn(rows, keys[j])) && candidates[j] == Pair(rows, keys[j])
    {
      GroupedIsCallsOn(rows, keys[k]);
      var calls := grouped[keys[k]];
      var ok := IsChained(calls);
      if !ok {
        return None;
      }
      candidates := candidates + [Candidate(keys[k], calls[0].preimage, calls[|calls| - 1].candidate)];
    }
    return Some(candidates);
  }

  /** Main result: the pairwise check accepts exactly the logs that replay cleanly from the first
      preimages, and the collapsed pairs, one for each path of the log, are the start and the end of
      that replay. */
  method Collapse(rows: seq<ToolCall>) returns (r: Outcome<seq<Candidate>>)
    ensures r.Ok? <==> rows != [] && AllEvidenced(rows) && Replay(FirstPreimages(rows), rows).Some?
    ensures rows == [] || !AllEvidenced(rows) ==> r == Refused("git_mutation_evidence_invalid")
    ensures rows != [] && AllEvidenced(rows) && !r.Ok? ==> r == Refused("git_mutation_chain_invalid")
    ensures r.Ok? ==> |r.value| == |FirstSeen(rows)|
    ensures r.Ok? ==> forall k :: 0 <= k < |r.value| ==>
      r.value[k].path == FirstSeen(rows)[k] && IsNetChange(rows, r.value[k])
    ensures r.Ok? ==> forall i, j :: 0 <= i < j < |r.value| ==> r.value[i].path != r.value[j].path
    ensures r.Ok? ==> forall p :: p in FirstPreimages(rows) ==> exists k :: 0 <= k < |r.value| && r.value[k].path == p
  {
    hide CallsOn, Grouped, FirstSeen, Chained, Replay, FirstPreimages, AllChained, IsNetChange;
    if rows == [] || !AllEvidenced(rows) {
      return Refused("git_mutation_evidence_invalid");
    }
    var keys, grouped := Group(rows);
    var collapsed := CollapseGroups(rows, keys, grouped);
    ReplayIffChained(rows);
    if collapsed.None? {
      return Refused("git_mutation_chain_invalid");
    }
    AllKeysChained(rows);
    FirstSeenDistinct(rows);
    forall k | 0 <= k < |keys|
      ensures IsNetChange(rows, collapsed.value[k])
    {
      PairIsNetChange(rows, keys[k]);
    }
    forall p | p in FirstPreimages(rows)
      ensures exists k :: 0 <= k < |keys| && collapsed.value[k].path == p
    {
      CollapsedPaths(rows, p);
      var k :| 0 <= k < |keys| && keys[k] == p;
      assert collapsed.value[k].path == p;
    }
    return Ok(collapsed.value);
  }

  lemma PairIsNetChange(rows: seq<ToolCall>, p: Path)
    requires Replay(FirstPreimages(rows), rows).Some? && CallsOn(rows, p) != []
    ensures IsNetChange(rows, Pair(rows, p))
  {
    hide CallsOn, Replay, FirstPreimages;
    CollapsedPair(rows, p);
  }

  lemma AllKeysChained(rows: seq<ToolCall>)
    requires forall j :: 0 <= j < |FirstSeen(rows)| ==> Chained(CallsOn(rows, FirstSeen(rows)[j]))
    ensures Replay(FirstPreimages(rows), rows).Some?
  {
    hide CallsOn, Grouped, FirstSeen, Replay, FirstPreimages;
    var keys := FirstSeen(rows);
    forall p
      ensures Chained(CallsOn(rows, p))
    {
      GroupedIsCallsOn(rows, p);
      if p in keys {
        var j :| 0 <= j < |keys| && keys[j] == p;
        assert Chained(CallsOn(rows, keys[j]));
      }
    }
    assert AllChained(rows);
    ReplayIffChained(rows);
  }

  /** The collapsed paths are exactly the paths that the replay starts from. */
  lemma CollapsedPaths(rows: seq<ToolCall>, p: Path)
    ensures p in FirstPreimages(rows) <==> p in FirstSeen(rows)
  {
    FirstPreimagesByPath(rows);
    GroupedIsCallsOn(rows, p);
  }
}
