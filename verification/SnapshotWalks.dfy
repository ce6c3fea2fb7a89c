/** The two traversals as the source runs them, proved against the verdicts of SnapshotTrees. */
module SnapshotWalks {
  import opened Framing
  import opened SortedFiles
  import opened SnapshotTrees

  const CHUNK := 64 * 1024

  // ---------------------------------------------------------------- a directory, and what lies deeper

  predicate NoDirectoryLinks(children: seq<Child>) {
    forall i :: 0 <= i < |children| && !Excluded(children[i].name) ==> children[i].node != Link(true)
  }

  predicate IsListedAsFile(node: Node) {
    !node.Dir? && node != Link(true)
  }

  predicate OwnFilesClean(children: seq<Child>) {
    forall i :: 0 <= i < |children| && !Excluded(children[i].name) && IsListedAsFile(children[i].node) ==>
      children[i].node.File? && |children[i].node.data| <= MAX_FILE_BYTES
  }

  predicate DeepClean(children: seq<Child>) {
    forall i :: 0 <= i < |children| && !Excluded(children[i].name) && children[i].node.Dir? ==>
      Clean(children[i].node.children)
  }

  lemma CleanInParts(children: seq<Child>)
    ensures Clean(children) <==> NoDirectoryLinks(children) && OwnFilesClean(children) && DeepClean(children)
  {
    if NoDirectoryLinks(children) && OwnFilesClean(children) && DeepClean(children) {
      forall i | 0 <= i < |children| && !Excluded(children[i].name)
        ensures match children[i].node case Dir(sub) => Clean(sub) case File(data) => |data| <= MAX_FILE_BYTES
                case _ => false
      {
        assert children[i].node.Dir? || children[i].node == Link(true) || IsListedAsFile(children[i].node);
      }
    }
  }

  function Directories(children: seq<Child>): nat {
    if children == [] then 0
    else
      var child := children[|children| - 1];
      Directories(children[..|children| - 1]) + if !Excluded(child.name) && child.node.Dir? then 1 else 0
  }

  function OwnBytes(children: seq<Child>): nat {
    if children == [] then 0
    else
      var child := children[|children| - 1];
      OwnBytes(children[..|children| - 1])
      + if !Excluded(child.name) && child.node.File? then |child.node.data| else 0
  }

  function DeepEntries(children: seq<Child>): nat {
    if children == [] then 0
    else
      var child := children[|children| - 1];
      DeepEntries(children[..|children| - 1])
      + if !Excluded(child.name) && child.node.Dir? then Entries(child.node.children) else 0
  }

  function DeepBytes(children: seq<Child>): nat {
    if children == [] then 0
    else
      var child := children[|children| - 1];
      DeepBytes(children[..|children| - 1])
      + if !Excluded(child.name) && child.node.Dir? then TotalBytes(child.node.children) else 0
  }

  /** The order of the walk does not matter to the totals. */
  lemma {:induction false} CountedInParts(prefix: Bytes, children: seq<Child>)
    requires Clean(children)
    ensures Entries(children) == Directories(children) + |OwnFiles(prefix, children)| + DeepEntries(children)
    ensures TotalBytes(children) == OwnBytes(children) + DeepBytes(children)
  {
    if children != [] {
      var n := |children| - 1;
      assert forall i :: 0 <= i < n ==> children[..n][i] == children[i];
      CountedInParts(prefix, children[..n]);
      assert children[n].node.Dir? || children[n].node.File? || Excluded(children[n].name);
    }
  }

  lemma {:induction false} PartsGrow(prefix: Bytes, children: seq<Child>, i: nat)
    requires i <= |children|
    ensures Directories(children[..i]) <= Directories(children) && OwnBytes(children[..i]) <= OwnBytes(children)
    ensures |OwnFiles(prefix, children[..i])| <= |OwnFiles(prefix, children)|
    ensures DeepEntries(children[..i]) <= DeepEntries(children) && DeepBytes(children[..i]) <= DeepBytes(children)
    ensures Entries(children[..i]) <= Entries(children) && TotalBytes(children[..i]) <= TotalBytes(children)
  {
    hide Directories, OwnBytes, OwnFiles, DeepEntries, DeepBytes, Entries, TotalBytes;
    var n := |children| - 1;
    if i == |children| {
      assert children[..i] == children;
    } else {
      PartsGrow(prefix, children[..n], i);
      PartsGrowByOne(prefix, children);
      assert children[..n][..i] == children[..i];
    }
  }

  lemma PartsGrowByOne(prefix: Bytes, children: seq<Child>)
    requires children != []
    ensures var front := children[..|children| - 1];
      && Directories(front) <= Directories(children) && OwnBytes(front) <= OwnBytes(children)
      && |OwnFiles(prefix, front)| <= |OwnFiles(prefix, children)|
      && DeepEntries(front) <= DeepEntries(children) && DeepBytes(front) <= DeepBytes(children)
      && Entries(front) <= Entries(children) && TotalBytes(front) <= TotalBytes(children)
  {
    hide Excluded;
  }

  lemma PartsStep(prefix: Bytes, children: seq<Child>, i: nat)
    requires i < |children|
    ensures var child := children[i]; var shown := !Excluded(child.name);
      && Directories(children[..i + 1]) ==
           Directories(children[..i]) + (if shown && child.node.Dir? then 1 else 0)
      && OwnFiles(prefix, children[..i + 1]) ==
           OwnFiles(prefix, children[..i])
           + (if shown && child.node.File? then [Record(prefix + child.name, child.node.data)] else [])
      && OwnBytes(children[..i + 1]) ==
           OwnBytes(children[..i]) + (if shown && child.node.File? then |child.node.data| else 0)
  {
    assert children[..i + 1][..i] == children[..i];
  }

  lemma DeepStep(prefix: Bytes, children: seq<Child>, i: nat)
    requires i < |children|
    ensures var child := children[i]; var shown := !Excluded(child.name) && child.node.Dir?;
      && DeepEntries(children[..i + 1]) ==
           DeepEntries(children[..i]) + (if shown then Entries(child.node.children) else 0)
      && DeepBytes(children[..i + 1]) ==
           DeepBytes(children[..i]) + (if shown then TotalBytes(child.node.children) else 0)
      && DeepFiles(prefix, children[..i + 1]) ==
           DeepFiles(prefix, children[..i])
           + (if shown then WalkedFiles(prefix + child.name + [SLASH], child.node.children) else [])
  {
    assert children[..i + 1][..i] == children[..i];
  }

  /** What a child may be in each of the three passes over a directory. */
  lemma CleanSteps(children: seq<Child>, i: nat)
    requires i < |children|
    ensures var node := children[i].node; var shown := !Excluded(children[i].name);
      && (NoDirectoryLinks(children[..i + 1]) <==>
            NoDirectoryLinks(children[..i]) && !(shown && node == Link(true)))
      && (OwnFilesClean(children[..i + 1]) <==>
            OwnFilesClean(children[..i])
            && (shown && IsListedAsFile(node) ==> node.File? && |node.data| <= MAX_FILE_BYTES))
      && (DeepClean(children[..i + 1]) <==>
            DeepClean(children[..i]) && (shown && node.Dir? ==> Clean(node.children)))
  {
    hide Excluded, Clean;
    assert forall k :: 0 <= k < i ==> children[..i + 1][k] == children[..i][k] == children[k];
    assert children[..i + 1][i] == children[i];
  }

  lemma CleanFronts(children: seq<Child>, i: nat)
    requires i <= |children|
    ensures NoDirectoryLinks(children) ==> NoDirectoryLinks(children[..i])
    ensures OwnFilesClean(children) ==> OwnFilesClean(children[..i])
    ensures DeepClean(children) ==> DeepClean(children[..i])
  {
    hide Excluded, Clean;
  }

  lemma NothingVisitedYet(prefix: Bytes, children: seq<Child>)
    ensures var none := children[..0];
      && NoDirectoryLinks(none) && OwnFilesClean(none) && DeepClean(none)
      && Directories(none) == OwnBytes(none) == DeepEntries(none) == DeepBytes(none) == 0
      && OwnFiles(prefix, none) == DeepFiles(prefix, none) == []
  {
  }

  // ---------------------------------------------------------------- the adapter

  class SourceWalk {
    var files: seq<Record>
    var entries: nat
    var total: nat

    constructor ()
      ensures files == [] && entries == 0 && total == 0
    {
      files, entries, total := [], 0, 0;
    }

    /** The loop over the directories a directory lists. */
    method CountDirectories(children: seq<Child>) returns (ok: bool)
      requires entries <= MAX_FILES
      modifies this`entries
      ensures ok <==> NoDirectoryLinks(children) && old(entries) + Directories(children) <= MAX_FILES
      ensures ok ==> entries == old(entries) + Directories(children)
    {
      hide Excluded, NoDirectoryLinks, OwnFilesClean, DeepClean, Clean, Directories, OwnFiles, OwnBytes, DeepEntries,
        DeepBytes, DeepFiles, WalkedFiles, Entries, TotalBytes;
      NothingVisitedYet([], children);
      for i := 0 to |children|
        invariant NoDirectoryLinks(children[..i])
        invariant entries == old(entries) + Directories(children[..i]) <= MAX_FILES
      {
        var child := children[i];
        PartsStep([], children, i);
        CleanSteps(children, i);
        CleanFronts(children, i + 1);
        PartsGrow([], children, i + 1);
        if Excluded(child.name) || IsListedAsFile(child.node) {
          continue;
        }
        if child.node == Link(true) {
          return false;
        }
        entries := entries + 1;
        if entries > MAX_FILES {
          return false;
        }
      }
      assert children[..|children|] == children;
      return true;
    }

    /** The loop over the other names it lists. */
    method TakeFiles(prefix: Bytes, children: seq<Child>) returns (ok: bool)
      requires entries <= MAX_FILES && total <= MAX_SOURCE_BYTES
      modifies this
      ensures ok <==>
        && OwnFilesClean(children)
        && old(entries) + |OwnFiles(prefix, children)| <= MAX_FILES
        && old(total) + OwnBytes(children) <= MAX_SOURCE_BYTES
      ensures ok ==> entries == old(entries) + |OwnFiles(prefix, children)|
      ensures ok ==> total == old(total) + OwnBytes(children)
      ensures ok ==> files == old(files) + OwnFiles(prefix, children)
    {
      hide Excluded, NoDirectoryLinks, OwnFilesClean, DeepClean, Clean, Directories, OwnFiles, OwnBytes, DeepEntries,
        DeepBytes, DeepFiles, WalkedFiles, Entries, TotalBytes;
      NothingVisitedYet(prefix, children);
      for i := 0 to |children|
        invariant OwnFilesClean(children[..i])
        invariant entries == old(entries) + |OwnFiles(prefix, children[..i])| <= MAX_FILES
        invariant total == old(total) + OwnBytes(children[..i]) <= MAX_SOURCE_BYTES
        invariant files == old(files) + OwnFiles(prefix, children[..i])
      {
        var child := children[i];
        PartsStep(prefix, children, i);
        CleanSteps(children, i);
        CleanFronts(children, i + 1);
        PartsGrow(prefix, children, i + 1);
        if Excluded(child.name) || !IsListedAsFile(child.node) {
          continue;
        }
        if !child.node.File? || |child.node.data| > MAX_FILE_BYTES {
          return false;
        }
        entries := entries + 1;
        total := total + |child.node.data|;
        if entries > MAX_FILES || total > MAX_SOURCE_BYTES {
          return false;
        }
        files := files + [Record(prefix + child.name, child.node.data)];
      }
      assert children[..|children|] == children;
      return true;
    }

    /** The walks of the directories below, in turn. */
    method Descend(prefix: Bytes, children: seq<Child>) returns (ok: bool)
      requires entries <= MAX_FILES && total <= MAX_SOURCE_BYTES
      modifies this
      decreases children, 0
      ensures ok <==>
        && DeepClean(children)
        && old(entries) + DeepEntries(children) <= MAX_FILES
        && old(total) + DeepBytes(children) <= MAX_SOURCE_BYTES
      ensures ok ==> entries == old(entries) + DeepEntries(children)
      ensures ok ==> total == old(total) + DeepBytes(children)
      ensures ok ==> files == old(files) + DeepFiles(prefix, children)
    {
      hide Excluded, NoDirectoryLinks, OwnFilesClean, DeepClean, Clean, Directories, OwnFiles, OwnBytes, DeepEntries,
        DeepBytes, DeepFiles, WalkedFiles, Entries, TotalBytes;
      NothingVisitedYet(prefix, children);
      for i := 0 to |children|
        invariant DeepClean(children[..i])
        invariant entries == old(entries) + DeepEntries(children[..i]) <= MAX_FILES
        invariant total == old(total) + DeepBytes(children[..i]) <= MAX_SOURCE_BYTES
        invariant files == old(files) + DeepFiles(prefix, children[..i])
      {
        var child := children[i];
        DeepStep(prefix, children, i);
        CleanSteps(children, i);
        CleanFronts(children, i + 1);
        PartsGrow(prefix, children, i + 1);
        if Excluded(child.name) || !child.node.Dir? {
          continue;
        }
        var below := Visit(prefix + child.name + [SLASH], child.node.children);
        if !below {
          return false;
        }
      }
      assert children[..|children|] == children;
      return true;
    }

    /** `_regular_files`: one step of the top-down walk and the walks below it. */
    method Visit(prefix: Bytes, children: seq<Child>) returns (ok: bool)
      requires entries <= MAX_FILES && total <= MAX_SOURCE_BYTES
      modifies this
      decreases children, 1
      ensures ok <==>
        && Clean(children)
        && old(entries) + Entries(children) <= MAX_FILES
        && old(total) + TotalBytes(children) <= MAX_SOURCE_BYTES
      ensures ok ==> entries == old(entries) + Entries(children)
      ensures ok ==> total == old(total) + TotalBytes(children)
      ensures ok ==> files == old(files) + WalkedFiles(prefix, children)
    {
      hide Clean, Entries, TotalBytes, OwnFiles, DeepFiles, Directories, OwnBytes, DeepEntries, DeepBytes,
        NoDirectoryLinks, OwnFilesClean, DeepClean;
      CleanInParts(children);
      if Clean(children) {
        CountedInParts(prefix, children);
      }
      ok := CountDirectories(children);
      if ok {
        ok := TakeFiles(prefix, children);
      }
      if ok {
        ok := Descend(prefix, children);
      }
    }
  }

  /** `_digest_files`. */
  method DigestFiles(files: seq<Record>) returns (verdict: Verdict)
    ensures verdict ==
      if forall i :: 0 <= i < |files| ==> |files[i].data| <= MAX_FILE_BYTES then Digested(Sha256(Frame(files)))
      else Refused
  {
    var hashed: Bytes := [];
    for i := 0 to |files|
      invariant hashed == Frame(files[..i])
      invariant forall j :: 0 <= j < i ==> |files[j].data| <= MAX_FILE_BYTES
    {
      if |files[i].data| > MAX_FILE_BYTES {
        return Refused;
      }
      assert files[..i + 1][..i] == files[..i];
      hashed := hashed + FrameOne(files[i]);
    }
    assert files[..|files|] == files;
    return Digested(Sha256(hashed));
  }

  lemma {:induction false} CleanFilesFit(prefix: Bytes, children: seq<Child>, r: Record)
    requires Clean(children) && r in Files(prefix, children)
    ensures |r.data| <= MAX_FILE_BYTES
    decreases children
  {
    var n := |children| - 1;
    assert forall i :: 0 <= i < n ==> children[..n][i] == children[i];
    if r in Files(prefix, children[..n]) {
      CleanFilesFit(prefix, children[..n], r);
    } else if children[n].node.Dir? {
      CleanFilesFit(prefix + children[n].name + [SLASH], children[n].node.children, r);
    }
  }

  lemma SortedFilesFit(tree: seq<Child>, files: seq<Record>)
    requires Clean(tree) && files == Sort(WalkedFiles([], tree))
    ensures forall i :: 0 <= i < |files| ==> |files[i].data| <= MAX_FILE_BYTES
  {
    SortKeeps(WalkedFiles([], tree));
    WalkVisitsTheSame([], tree);
    forall i | 0 <= i < |files|
      ensures |files[i].data| <= MAX_FILE_BYTES
    {
      SameMembers(files, Files([], tree), files[i]);
      CleanFilesFit([], tree, files[i]);
    }
  }

  /** `source_digest`; encoding the paths for sorting is where an undecodable file name is refused. */
  method SourceDigest(tree: seq<Child>) returns (verdict: Verdict)
    ensures verdict == AdapterVerdict(tree)
  {
    var walk := new SourceWalk();
    var ok := walk.Visit([], tree);
    assert ok ==> walk.files == WalkedFiles([], tree);
    if !ok || !PathsEncode(walk.files) {
      return Refused;
    }
    var sorted := Sort(walk.files);
    SortedFilesFit(tree, sorted);
    verdict := DigestFiles(sorted);
  }

  // ---------------------------------------------------------------- the worker

  /** `_snapshot_digest`, over the files that were copied. */
  method SnapshotDigest(copied: seq<Record>) returns (digest: Digest)
    ensures digest == Sha256(Frame(Sort(copied)))
  {
    var files := Sort(copied);
    var hashed: Bytes := [];
    for i := 0 to |files|
      invariant hashed == Frame(files[..i])
    {
      assert files[..i + 1][..i] == files[..i];
      hashed := hashed + FrameOne(files[i]);
    }
    assert files[..|files|] == files;
    digest := Sha256(hashed);
  }

  // What one child contributes.

  function ChildEntries(child: Child): nat {
    if Excluded(child.name) then 0 else if child.node.Dir? then 1 + Entries(child.node.children) else 1
  }

  function ChildBytes(child: Child): nat {
    if Excluded(child.name) then 0
    else
      match child.node
      case Dir(sub) => TotalBytes(sub)
      case File(data) => |data|
      case _ => 0
  }

  function ChildFiles(prefix: Bytes, child: Child): seq<Record> {
    if Excluded(child.name) then []
    else
      match child.node
      case Dir(sub) => Files(prefix + child.name + [SLASH], sub)
      case File(data) => [Record(prefix + child.name, data)]
      case _ => []
  }

  predicate ChildAccepted(child: Child) {
    Excluded(child.name)
    || match child.node
       case Dir(sub) => NamesEncodable(sub) && Clean(sub)
       case File(data) => |data| <= MAX_FILE_BYTES
       case _ => false
  }

  lemma ChildStep(prefix: Bytes, children: seq<Child>, i: nat)
    requires i < |children|
    ensures Entries(children[..i + 1]) == Entries(children[..i]) + ChildEntries(children[i])
    ensures TotalBytes(children[..i + 1]) == TotalBytes(children[..i]) + ChildBytes(children[i])
    ensures Files(prefix, children[..i + 1]) == Files(prefix, children[..i]) + ChildFiles(prefix, children[i])
  {
    hide Excluded;
    assert children[..i + 1][..i] == children[..i];
  }

  lemma AcceptedStep(children: seq<Child>, i: nat)
    requires i < |children|
    ensures NamesEncodable(children[..i + 1]) && Clean(children[..i + 1]) <==>
      && NamesEncodable(children[..i]) && Clean(children[..i])
      && Encodable(children[i].name) && ChildAccepted(children[i])
  {
    hide Excluded, Encodable;
    assert forall k :: 0 <= k < i ==> children[..i + 1][k] == children[..i][k] == children[k];
    assert children[..i + 1][i] == children[i];
  }

  lemma NothingCopiedYet(prefix: Bytes, children: seq<Child>)
    ensures var none := children[..0];
      && NamesEncodable(none) && Clean(none)
      && Entries(none) == 0 && TotalBytes(none) == 0 && Files(prefix, none) == []
  {
  }

  lemma UnencodableListing(children: seq<Child>)
    requires exists i :: 0 <= i < |children| && !Encodable(children[i].name)
    ensures !NamesEncodable(children)
  {
  }

  lemma AcceptedFront(children: seq<Child>, i: nat)
    requires i <= |children| && NamesEncodable(children) && Clean(children)
    ensures NamesEncodable(children[..i]) && Clean(children[..i])
  {
  }

  class SnapshotStaging {
    var written: seq<Record>

    constructor ()
      ensures written == []
    {
      written := [];
    }

    /** Copies one regular file in chunks; a file that does not fit is removed again. */
    method CopyFile(path: Bytes, data: Bytes, budget: array<nat>) returns (ok: bool)
      requires budget.Length == 2 && budget[1] <= MAX_SOURCE_BYTES
      modifies this, budget
      ensures ok <==> |data| <= MAX_FILE_BYTES && old(budget[1]) + |data| <= MAX_SOURCE_BYTES
      ensures budget[0] == old(budget[0])
      ensures ok ==> budget[1] == old(budget[1]) + |data|
      ensures written == if ok then old(written) + [Record(path, data)] else old(written)
    {
      if |data| > MAX_FILE_BYTES {
        return false;
      }
      var target: Bytes := [];
      while |target| < |data|
        invariant target <= data && written == old(written)
        invariant budget[0] == old(budget[0])
        invariant budget[1] == old(budget[1]) + |target| <= MAX_SOURCE_BYTES
      {
        var end := if |target| + CHUNK < |data| then |target| + CHUNK else |data|;
        var chunk := data[|target|..end];
        if |target| + |chunk| > MAX_FILE_BYTES {
          return false;
        }
        budget[1] := budget[1] + |chunk|;
        if budget[1] > MAX_SOURCE_BYTES {
          return false;
        }
        target := target + chunk;
      }
      assert target == data;
      written := written + [Record(path, target)];
      return true;
    }

    /** One turn of the loop over the names of a directory. */
    method CopyChild(prefix: Bytes, child: Child, budget: array<nat>) returns (ok: bool)
      requires ProperName(child.name) && (child.node.Dir? ==> WellFormed(child.node.children))
      requires budget.Length == 2 && budget[0] <= MAX_FILES && budget[1] <= MAX_SOURCE_BYTES
      modifies this, budget
      decreases child.node, 0
      ensures ok <==>
        && ChildAccepted(child)
        && old(budget[0]) + ChildEntries(child) <= MAX_FILES
        && old(budget[1]) + ChildBytes(child) <= MAX_SOURCE_BYTES
      ensures ok ==> budget[0] == old(budget[0]) + ChildEntries(child)
      ensures ok ==> budget[1] == old(budget[1]) + ChildBytes(child)
      ensures ok ==> written == old(written) + ChildFiles(prefix, child)
    {
      hide Excluded, Encodable, Entries, TotalBytes, Files, Clean, NamesEncodable;
      if !ProperName(child.name) {
        return false;
      }
      if Excluded(child.name) {
        return true;
      }
      budget[0] := budget[0] + 1;
      if budget[0] > MAX_FILES {
        return false;
      }
      match child.node {
        case Dir(sub) =>
          ok := CopyDirectory(prefix + child.name + [SLASH], sub, budget);
        case File(data) =>
          ok := CopyFile(prefix + child.name, data, budget);
        case _ =>
          return false;
      }
    }

    /** `_copy_directory`: sorting by the encoded name refuses every listed name that cannot be encoded. */
    method CopyDirectory(prefix: Bytes, children: seq<Child>, budget: array<nat>) returns (ok: bool)
      requires WellFormed(children)
      requires budget.Length == 2 && budget[0] <= MAX_FILES && budget[1] <= MAX_SOURCE_BYTES
      modifies this, budget
      decreases children, 1
      ensures ok <==>
        && NamesEncodable(children) && Clean(children)
        && old(budget[0]) + Entries(children) <= MAX_FILES
        && old(budget[1]) + TotalBytes(children) <= MAX_SOURCE_BYTES
      ensures ok ==> budget[0] == old(budget[0]) + Entries(children)
      ensures ok ==> budget[1] == old(budget[1]) + TotalBytes(children)
      ensures ok ==> written == old(written) + Files(prefix, children)
    {
      hide Excluded, Encodable, Entries, TotalBytes, Files, Clean, NamesEncodable, ChildAccepted, ChildEntries,
        ChildBytes, ChildFiles;
      if !(forall i :: 0 <= i < |children| ==> Encodable(children[i].name)) {
        UnencodableListing(children);
        return false;
      }
      NothingCopiedYet(prefix, children);
      for i := 0 to |children|
        invariant NamesEncodable(children[..i]) && Clean(children[..i])
        invariant budget[0] == old(budget[0]) + Entries(children[..i]) <= MAX_FILES
        invariant budget[1] == old(budget[1]) + TotalBytes(children[..i]) <= MAX_SOURCE_BYTES
        invariant written == old(written) + Files(prefix, children[..i])
      {
        ChildStep(prefix, children, i);
        AcceptedStep(children, i);
        PartsGrow(prefix, children, i + 1);
        var copied := CopyChild(prefix, children[i], budget);
        if !copied {
          if NamesEncodable(children) && Clean(children) {
            AcceptedFront(children, i + 1);
          }
          return false;
        }
      }
      assert children[..|children|] == children;
      return true;
    }

    /** `stage_snapshot`: a failed staging leaves nothing behind. */
    method Stage(tree: seq<Child>) returns (verdict: Verdict)
      requires WellFormed(tree) && written == []
      modifies this
      ensures verdict == WorkerVerdict(tree)
      ensures written == if verdict.Digested? then Files([], tree) else []
    {
      var budget := new nat[] [0, 0];
      var ok := CopyDirectory([], tree, budget);
      assert ok ==> written == Files([], tree);
      if !ok || budget[0] == 0 {
        written := [];
        return Refused;
      }
      var digest := SnapshotDigest(written);
      return Digested(digest);
    }
  }
}
