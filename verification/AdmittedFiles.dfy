/** Which files a source tree admits, said of each file by itself: it can be reached from the root, and no name on the
    way to it is excluded. */
module AdmittedFiles {
  import opened Framing
  import opened SnapshotTrees

  type Parts = seq<Bytes>

  /** The names lead through directories to a regular file, and none of them is excluded. */
  ghost predicate Admits(children: seq<Child>, parts: Parts, data: Bytes)
    decreases |parts|, 0
  {
    && parts != [] && !Excluded(parts[0])
    && exists k :: 0 <= k < |children| && children[k].name == parts[0] && Holds(children[k].node, parts[1..], data)
  }

  ghost predicate Holds(node: Node, rest: Parts, data: Bytes)
    decreases |rest|, 1
  {
    if rest == [] then node == File(data) else node.Dir? && Admits(node.children, rest, data)
  }

  /** The parts joined by slashes, after a prefix. */
  function Join(prefix: Bytes, parts: Parts): Bytes
    requires parts != []
    decreases |parts|
  {
    if |parts| == 1 then prefix + parts[0] else Join(prefix + parts[0] + [SLASH], parts[1..])
  }

  ghost predicate IsAdmitted(prefix: Bytes, children: seq<Child>, r: Record, parts: Parts) {
    parts != [] && Admits(children, parts, r.data) && r.path == Join(prefix, parts)
  }

  /** A listed file is admitted. */
  lemma {:induction false} ListedIsAdmitted(prefix: Bytes, children: seq<Child>, r: Record) returns (parts: Parts)
    requires r in Files(prefix, children)
    ensures IsAdmitted(prefix, children, r, parts)
    decreases children
  {
    var n := |children| - 1;
    var child := children[n];
    if r in Files(prefix, children[..n]) {
      parts := ListedIsAdmitted(prefix, children[..n], r);
      var k :| 0 <= k < n && children[..n][k].name == parts[0] && Holds(children[..n][k].node, parts[1..], r.data);
      assert children[k].name == parts[0];
    } else if child.node.Dir? {
      var rest := ListedIsAdmitted(prefix + child.name + [SLASH], child.node.children, r);
      parts := [child.name] + rest;
      assert parts[1..] == rest;
      assert children[n].name == parts[0] && Holds(children[n].node, parts[1..], r.data);
    } else {
      parts := [child.name];
      assert parts[1..] == [];
      assert children[n].name == parts[0] && Holds(children[n].node, parts[1..], r.data);
    }
  }

  lemma {:induction false} EarlierIsListed(prefix: Bytes, children: seq<Child>, n: nat, r: Record)
    requires n <= |children| && r in Files(prefix, children[..n])
    ensures r in Files(prefix, children)
    decreases |children| - n
  {
    if n == |children| {
      assert children[..n] == children;
    } else {
      assert children[..n + 1][..n] == children[..n];
      EarlierIsListed(prefix, children, n + 1, r);
    }
  }

  /** An admitted file is listed. */
  lemma {:induction false} AdmittedIsListed(prefix: Bytes, children: seq<Child>, r: Record, parts: Parts)
    requires IsAdmitted(prefix, children, r, parts)
    ensures r in Files(prefix, children)
    decreases |parts|
  {
    var k :| 0 <= k < |children| && children[k].name == parts[0] && Holds(children[k].node, parts[1..], r.data);
    var child := children[k];
    if |parts| > 1 {
      AdmittedIsListed(prefix + child.name + [SLASH], child.node.children, r, parts[1..]);
    }
    assert children[..k + 1][..k] == children[..k];
    assert r in Files(prefix, children[..k + 1]);
    EarlierIsListed(prefix, children, k + 1, r);
  }

  /** Main result: what is staged and digested are exactly the admitted files, under their paths. */
  lemma FilesAreAdmitted(tree: seq<Child>, r: Record)
    ensures r in Files([], tree) <==> exists parts :: IsAdmitted([], tree, r, parts)
  {
    hide Files, IsAdmitted;
    if r in Files([], tree) {
      var parts := ListedIsAdmitted([], tree, r);
    }
    if parts :| IsAdmitted([], tree, r, parts) {
      AdmittedIsListed([], tree, r, parts);
    }
  }
}
