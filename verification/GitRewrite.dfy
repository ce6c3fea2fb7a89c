/** The recursive tree rewrite `_replace_tree` of git_changesets/local.py, and what it means. */
module GitRewrite {
  import opened GitTrees
  import opened Options

  type Changes = map<Path, Entry>

  /** The source collects these names from every replacement, whatever its prefix. */
  function ChildNames(R: Changes, depth: nat): set<Name> {
    set q | q in R && |q| > depth :: q[depth]
  }

  predicate ChangedBelow(R: Changes, p: Path) {
    exists q :: q in R && p < q
  }

  /** The rewrite against a fixed store; `None` when it raises. */
  ghost function Rewrite(store: set<Oid>, tree: Oid, R: Changes, prefix: Path): (r: Option<Oid>)
    requires tree.TreeId?
    decreases tree, 1
  {
    var names := tree.entries.Keys + ChildNames(R, |prefix|);
    if forall n :: n in names ==> RewriteEntry(store, tree, R, prefix, n).Some? then
      Some(TreeId(map n | n in names :: RewriteEntry(store, tree, R, prefix, n).value))
    else None
  }

  ghost function RewriteEntry(store: set<Oid>, tree: Oid, R: Changes, prefix: Path, n: Name): Option<Entry>
    requires tree.TreeId?
    decreases tree, 0
  {
    if prefix + [n] in R then Some(R[prefix + [n]])
    else if n !in tree.entries then None
    else
      var e := tree.entries[n];
      if !ChangedBelow(R, prefix + [n]) then Some(e)
      else if e.id !in store || !e.id.TreeId? then None
      else
        match Rewrite(store, e.id, R, prefix + [n])
        case None => None
        case Some(t) => Some(Entry(e.mode, t))
  }

  /** More objects never change an answer. */
  lemma {:induction false} RewriteStable(small: set<Oid>, big: set<Oid>, tree: Oid, R: Changes, prefix: Path)
    requires tree.TreeId? && small <= big
    requires Rewrite(small, tree, R, prefix).Some?
    ensures Rewrite(big, tree, R, prefix) == Rewrite(small, tree, R, prefix)
    decreases tree, 1
  {
    var names := tree.entries.Keys + ChildNames(R, |prefix|);
    forall n | n in names
      ensures RewriteEntry(big, tree, R, prefix, n) == RewriteEntry(small, tree, R, prefix, n)
    {
      RewriteEntryStable(small, big, tree, R, prefix, n);
    }
    assert Rewrite(big, tree, R, prefix).value.entries == Rewrite(small, tree, R, prefix).value.entries;
  }

  lemma {:induction false} RewriteEntryStable(
      small: set<Oid>, big: set<Oid>, tree: Oid, R: Changes, prefix: Path, n: Name)
    requires tree.TreeId? && small <= big
    requires RewriteEntry(small, tree, R, prefix, n).Some?
    ensures RewriteEntry(big, tree, R, prefix, n) == RewriteEntry(small, tree, R, prefix, n)
    decreases tree, 0
  {
    if prefix + [n] !in R && ChangedBelow(R, prefix + [n]) {
      RewriteStable(small, big, tree.entries[n].id, R, prefix + [n]);
    }
  }

  /** The id predicted from one store is the id built in any other, whenever both return. */
  lemma RewriteIndependentOfStore(s1: set<Oid>, s2: set<Oid>, tree: Oid, R: Changes)
    requires tree.TreeId?
    requires Rewrite(s1, tree, R, []).Some? && Rewrite(s2, tree, R, []).Some?
    ensures Rewrite(s1, tree, R, []) == Rewrite(s2, tree, R, [])
  {
    RewriteStable(s1, s1 + s2, tree, R, []);
    RewriteStable(s2, s1 + s2, tree, R, []);
  }

  /** Every replacement below `prefix` names a file that `_tree_entry` finds. */
  ghost predicate Resolves(store: set<Oid>, tree: Oid, R: Changes, prefix: Path)
    requires tree.TreeId?
  {
    forall q :: q in R && prefix < q ==>
      var e := TreeEntry(store, tree, q[|prefix|..]);
      e.Ok? && !IsDir(e.value.mode)
  }

  ghost predicate FileModes(R: Changes) {
    forall q :: q in R ==> !IsDir(R[q].mode)
  }

  /** A resolved file is a leaf of the flattened tree. */
  lemma {:induction false} ResolvedIsLeaf(store: set<Oid>, tree: Oid, p: Path)
    requires tree.TreeId?
    requires TreeEntry(store, tree, p).Ok? && !IsDir(TreeEntry(store, tree, p).value.mode)
    ensures LeafAt(tree, p) == Some(TreeEntry(store, tree, p).value)
    decreases |p|
  {
    if |p| > 1 {
      ResolvedIsLeaf(store, tree.entries[p[0]].id, p[1..]);
    }
  }

  lemma ResolvesBelow(store: set<Oid>, tree: Oid, R: Changes, prefix: Path, n: Name)
    requires tree.TreeId? && Resolves(store, tree, R, prefix)
    requires ChangedBelow(R, prefix + [n])
    ensures n in tree.entries && IsDir(tree.entries[n].mode)
    ensures tree.entries[n].id in store && tree.entries[n].id.TreeId?
    ensures Resolves(store, tree.entries[n].id, R, prefix + [n])
    ensures prefix + [n] !in R
  {
    forall q | q in R && prefix + [n] < q
      ensures prefix < q && q[|prefix|..][0] == n && q[|prefix|..][1..] == q[|prefix + [n]|..]
      ensures n in tree.entries && IsDir(tree.entries[n].mode)
      ensures tree.entries[n].id in store && tree.entries[n].id.TreeId?
    {
      assert q[|prefix|] == (prefix + [n])[|prefix|] == n;
      var e := TreeEntry(store, tree, q[|prefix|..]);
      assert e.Ok?;
    }
    assert (prefix + [n])[|prefix|..] == [n];
  }

  /** Main result: a rewrite that returns is the flattened base overridden at exactly the given paths. */
  lemma {:induction false} RewriteOverrides(store: set<Oid>, tree: Oid, R: Changes, prefix: Path, t: Oid, p: Path)
    requires tree.TreeId? && Resolves(store, tree, R, prefix) && FileModes(R)
    requires Rewrite(store, tree, R, prefix) == Some(t)
    ensures LeafAt(t, p) ==
      if p != [] && prefix + p in R then Some(R[prefix + p]) else LeafAt(tree, p)
    decreases tree
  {
    if p != [] {
      var n, rest := p[0], p[1..];
      var here := prefix + [n];
      assert prefix + p == here + rest && here[|prefix|] == n && here[|prefix|..] == [n];
      if ChangedBelow(R, here) {
        ResolvesBelow(store, tree, R, prefix, n);
        var child := tree.entries[n];
        assert n in t.entries && t.entries[n] == RewriteEntry(store, tree, R, prefix, n).value;
        RewriteOverrides(store, child.id, R, here, t.entries[n].id, rest);
        if rest == [] {
          assert here + rest == here;
        }
      } else {
        if rest != [] {
          assert here < prefix + p;
        }
        UnchangedName(store, tree, R, prefix, t, p);
      }
    }
  }

  lemma UnchangedName(store: set<Oid>, tree: Oid, R: Changes, prefix: Path, t: Oid, p: Path)
    requires tree.TreeId? && Resolves(store, tree, R, prefix) && FileModes(R)
    requires Rewrite(store, tree, R, prefix) == Some(t)
    requires p != [] && !ChangedBelow(R, prefix + [p[0]])
    requires prefix + p in R ==> |p| == 1
    ensures LeafAt(t, p) ==
      if prefix + p in R then Some(R[prefix + p]) else LeafAt(tree, p)
  {
    var n := p[0];
    var here := prefix + [n];
    assert here[|prefix|] == n && here[|prefix|..] == [n];
    var names := tree.entries.Keys + ChildNames(R, |prefix|);
    assert t.entries.Keys == names;
    if here in R {
      assert prefix < here;
      assert t.entries[n] == R[here];
      if |p| == 1 {
        assert p == [n];
      }
    } else if |p| == 1 {
      assert p == [n];
    }
  }

  // ---------------------------------------------------------------- when it returns

  /** The directory of `tree` at path `dir` has an entry called `n`. */
  ghost predicate HasName(tree: Oid, dir: Path, n: Name)
    decreases |dir|
  {
    tree.TreeId? &&
    if dir == [] then n in tree.entries
    else dir[0] in tree.entries && HasName(tree.entries[dir[0]].id, dir[1..], n)
  }

  /** Each directory on the way to a replaced file has, at every depth, an entry named like the
      component that any other replacement has at that depth. */
  ghost predicate NamesAgree(tree: Oid, R: Changes, prefix: Path) {
    forall q1, q2, k :: NeedsName(R, prefix, q1, q2, k) ==> HasName(tree, q1[|prefix|..k], q2[k])
  }

  ghost predicate NeedsName(R: Changes, prefix: Path, q1: Path, q2: Path, k: int) {
    q1 in R && q2 in R && prefix < q1 && |prefix| <= k < |q1| && k < |q2|
  }

  /** Main result: on resolved paths the rewrite returns if and only if the names agree.
      The unfiltered `child_names` makes the right-hand side a real condition. */
  lemma {:induction false} RewriteReturnsIff(store: set<Oid>, tree: Oid, R: Changes, prefix: Path)
    requires tree.TreeId? && Resolves(store, tree, R, prefix)
    requires ChangedBelow(R, prefix) || R == map[]
    ensures Rewrite(store, tree, R, prefix).Some? <==> NamesAgree(tree, R, prefix)
    decreases tree
  {
    var names := tree.entries.Keys + ChildNames(R, |prefix|);
    if NamesAgree(tree, R, prefix) {
      forall n | n in names
        ensures RewriteEntry(store, tree, R, prefix, n).Some?
      {
        NamesAgreeHere(tree, R, prefix, n);
        if prefix + [n] !in R && ChangedBelow(R, prefix + [n]) {
          ResolvesBelow(store, tree, R, prefix, n);
          NamesAgreeBelow(tree, R, prefix, n);
          RewriteReturnsIff(store, tree.entries[n].id, R, prefix + [n]);
        }
      }
    }
    if Rewrite(store, tree, R, prefix).Some? {
      forall q1, q2, k | NeedsName(R, prefix, q1, q2, k)
        ensures HasName(tree, q1[|prefix|..k], q2[k])
      {
        RewriteNeedsName(store, tree, R, prefix, q1, q2, k);
      }
    }
  }

  lemma NamesAgreeHere(tree: Oid, R: Changes, prefix: Path, n: Name)
    requires tree.TreeId? && NamesAgree(tree, R, prefix)
    requires ChangedBelow(R, prefix) || R == map[]
    requires n in tree.entries.Keys + ChildNames(R, |prefix|)
    ensures n in tree.entries
  {
    if n in ChildNames(R, |prefix|) {
      var q1 :| q1 in R && prefix < q1;
      var q2 :| q2 in R && |q2| > |prefix| && q2[|prefix|] == n;
      assert NeedsName(R, prefix, q1, q2, |prefix|);
      assert q1[|prefix|..|prefix|] == [];
    }
  }

  lemma NamesAgreeBelow(tree: Oid, R: Changes, prefix: Path, n: Name)
    requires tree.TreeId? && NamesAgree(tree, R, prefix) && n in tree.entries
    ensures NamesAgree(tree.entries[n].id, R, prefix + [n])
  {
    var below := prefix + [n];
    forall q1, q2, k | NeedsName(R, below, q1, q2, k)
      ensures HasName(tree.entries[n].id, q1[|below|..k], q2[k])
    {
      assert q1[|prefix|] == below[|prefix|] == n;
      assert NeedsName(R, prefix, q1, q2, k);
      assert q1[|prefix|..k][1..] == q1[|below|..k];
    }
  }

  lemma {:induction false} RewriteNeedsName(
      store: set<Oid>, tree: Oid, R: Changes, prefix: Path, q1: Path, q2: Path, k: nat)
    requires tree.TreeId? && Resolves(store, tree, R, prefix)
    requires Rewrite(store, tree, R, prefix).Some?
    requires NeedsName(R, prefix, q1, q2, k)
    ensures HasName(tree, q1[|prefix|..k], q2[k])
    decreases tree
  {
    if k == |prefix| {
      var n := q2[k];
      assert n in ChildNames(R, |prefix|);
      assert RewriteEntry(store, tree, R, prefix, n).Some?;
      if prefix + [n] in R {
        assert (prefix + [n])[|prefix|..] == [n];
        assert prefix < prefix + [n];
      }
      assert q1[|prefix|..k] == [];
    } else {
      var n := q1[|prefix|];
      assert prefix + [n] < q1;
      ResolvesBelow(store, tree, R, prefix, n);
      assert RewriteEntry(store, tree, R, prefix, n).Some?;
      RewriteNeedsName(store, tree.entries[n].id, R, prefix + [n], q1, q2, k);
      assert q1[|prefix|..k][1..] == q1[|prefix| + 1..k];
    }
  }

  /** Replacements that all sit in one directory always go through. */
  lemma SameDirectoryReturns(store: set<Oid>, tree: Oid, R: Changes, dir: Path)
    requires tree.TreeId? && Resolves(store, tree, R, [])
    requires forall q :: q in R ==> |q| == |dir| + 1 && dir < q
    ensures Rewrite(store, tree, R, []).Some?
  {
    forall q1, q2, k | NeedsName(R, [], q1, q2, k)
      ensures HasName(tree, q1[0..k], q2[k])
    {
      var empty: Path := [];
      assert q2[|empty|..] == q2;
      assert q1[..k] == dir[..k] == q2[..k];
      ResolvedHasName(store, tree, q2, k);
    }
    if R != map[] {
      var q :| q in R;
      var empty: Path := [];
      assert empty < q;
    }
    RewriteReturnsIff(store, tree, R, []);
  }

  lemma {:induction false} ResolvedHasName(store: set<Oid>, tree: Oid, q: Path, k: nat)
    requires tree.TreeId? && TreeEntry(store, tree, q).Ok? && k < |q|
    ensures HasName(tree, q[..k], q[k])
    decreases k
  {
    if k > 0 {
      ResolvedHasName(store, tree.entries[q[0]].id, q[1..], k - 1);
      assert q[..k][1..] == q[1..][..k - 1];
    }
  }

  /** The failing family is inhabited: one file in each of two sibling directories. */
  lemma SiblingDirectoriesRaise() returns (store: set<Oid>, tree: Oid, R: Changes)
    ensures tree.TreeId? && Complete(store, tree) && Resolves(store, tree, R, []) && FileModes(R)
    ensures R.Keys == {["a", "x"], ["b", "y"]}
    ensures Rewrite(store, tree, R, []).None?
  {
    var blob := Entry(0x81A4, BlobId([]));
    var a, b := TreeId(map["x" := blob]), TreeId(map["y" := blob]);
    store, tree := {a, b}, TreeId(map["a" := Entry(0x4000, a), "b" := Entry(0x4000, b)]);
    R := map[["a", "x"] := blob, ["b", "y"] := blob];
    assert Complete(store, a) && Complete(store, b);
    assert TreeEntry(store, a, ["x"]) == TreeEntry(store, b, ["y"]) == Ok(blob);
    assert ["a", "x"][1..] == ["x"] && ["b", "y"][1..] == ["y"];
    assert TreeEntry(store, tree, ["a", "x"]) == TreeEntry(store, tree, ["b", "y"]) == Ok(blob);
    var empty: Path := [];
    assert ["a", "x"][|empty|..] == ["a", "x"] && ["b", "y"][|empty|..] == ["b", "y"];
    RewriteRaisesBecause(store, tree, R, ["a", "x"], ["b", "y"]);
  }

  lemma RewriteRaisesBecause(store: set<Oid>, tree: Oid, R: Changes, q1: Path, q2: Path)
    requires tree.TreeId? && Resolves(store, tree, R, [])
    requires q1 in R && q2 in R && |q1| > 1 && |q2| > 1
    requires !HasName(tree, [q1[0]], q2[1])
    ensures Rewrite(store, tree, R, []).None?
  {
    var empty: Path := [];
    assert empty < q1;
    assert NeedsName(R, [], q1, q2, 1);
    assert q1[0..1] == [q1[0]];
    RewriteReturnsIff(store, tree, R, []);
  }
}
