/** The mutable object store of git_changesets/local.py and the in-place tree rewrite. */
module GitStore {
  import opened GitTrees
  import opened GitRewrite
  import opened Options

  class ObjectStore {
    var objects: set<Oid>

    constructor (present: set<Oid>)
      ensures objects == present
    {
      objects := present;
    }

    /** `_replace_tree`.  With `persist` every rebuilt tree is added on the way back, so later
        lookups of the same call see a larger store; the answer does not depend on that. */
    method ReplaceTree(tree: Oid, R: Changes, prefix: Path, persist: bool) returns (r: Option<Oid>)
      requires tree.TreeId?
      modifies this
      ensures !persist ==> objects == old(objects) && r == Rewrite(objects, tree, R, prefix)
      ensures old(objects) <= objects && forall o :: o in objects - old(objects) ==> o.TreeId?
      ensures Rewrite(old(objects), tree, R, prefix).Some? ==> r == Rewrite(old(objects), tree, R, prefix)
      ensures r.Some? ==> r == Rewrite(objects, tree, R, prefix)
      ensures r.Some? && persist ==> r.value in objects
      ensures r.Some? && persist && FileModes(R) && Complete(old(objects), tree) ==> Complete(objects, r.value)
      decreases tree, 1
    {
      ghost var sound := persist && FileModes(R) && Complete(old(objects), tree);
      var result: map<Name, Entry> := map[];
      var names := tree.entries.Keys + ChildNames(R, |prefix|);
      var pending := names;
      while pending != {}
        invariant old(objects) <= objects && forall o :: o in objects - old(objects) ==> o.TreeId?
        invariant !persist ==> objects == old(objects)
        invariant pending <= names && result.Keys == names - pending
        invariant forall n :: n in result ==> RewriteEntry(objects, tree, R, prefix, n) == Some(result[n])
        invariant sound ==> forall n :: n in result ==> EntryComplete(objects, result[n])
      {
        var name :| name in pending;
        ghost var before := objects;
        CompleteGrows(old(objects), before, tree);
        var entry := ReplaceEntry(tree, R, prefix, persist, name);
        if entry.None? {
          EntryRaises(old(objects), before, tree, R, prefix, name);
          return None;
        }
        EntriesStable(before, objects, tree, R, prefix, result);
        result := result[name := entry.value];
        pending := pending - {name};
      }
      ghost var built := objects;
      if persist {
        objects := objects + {TreeId(result)};
      }
      EntriesStable(built, objects, tree, R, prefix, result);
      EntriesAreRewrite(objects, tree, R, prefix, result);
      if Rewrite(old(objects), tree, R, prefix).Some? {
        RewriteStable(old(objects), objects, tree, R, prefix);
      }
      return Some(TreeId(result));
    }

    /** The loop body of `_replace_tree`: the entry that goes into the rebuilt tree under `name`. */
    method ReplaceEntry(tree: Oid, R: Changes, prefix: Path, persist: bool, name: Name) returns (r: Option<Entry>)
      requires tree.TreeId?
      modifies this
      ensures !persist ==> objects == old(objects)
      ensures old(objects) <= objects && forall o :: o in objects - old(objects) ==> o.TreeId?
      ensures r.None? ==> RewriteEntry(old(objects), tree, R, prefix, name).None?
      ensures r.Some? ==> r == RewriteEntry(objects, tree, R, prefix, name)
      ensures r.Some? && persist && FileModes(R) && Complete(old(objects), tree) ==> EntryComplete(objects, r.value)
      decreases tree, 0
    {
      var here := prefix + [name];
      if here in R {
        return Some(R[here]);
      }
      if name !in tree.entries {
        return None;
      }
      var e := tree.entries[name];
      var id := e.id;
      if exists q :: q in R && here < q {
        if id !in objects || !id.TreeId? {
          return None;
        }
        var child := ReplaceTree(id, R, here, persist);
        if child.None? {
          return None;
        }
        id := child.value;
      }
      return Some(Entry(e.mode, id));
    }
  }

  lemma EntryRaises(small: set<Oid>, big: set<Oid>, tree: Oid, R: Changes, prefix: Path, n: Name)
    requires tree.TreeId? && small <= big
    requires n in tree.entries.Keys + ChildNames(R, |prefix|)
    requires RewriteEntry(big, tree, R, prefix, n).None?
    ensures Rewrite(small, tree, R, prefix).None?
  {
    if RewriteEntry(small, tree, R, prefix, n).Some? {
      RewriteEntryStable(small, big, tree, R, prefix, n);
    }
  }

  lemma EntriesStable(
      small: set<Oid>, big: set<Oid>, tree: Oid, R: Changes, prefix: Path, result: map<Name, Entry>)
    requires tree.TreeId? && small <= big
    requires forall n :: n in result ==> RewriteEntry(small, tree, R, prefix, n) == Some(result[n])
    ensures forall n :: n in result ==> RewriteEntry(big, tree, R, prefix, n) == Some(result[n])
    ensures forall n :: n in result && EntryComplete(small, result[n]) ==> EntryComplete(big, result[n])
  {
    forall n | n in result
      ensures RewriteEntry(big, tree, R, prefix, n) == Some(result[n])
      ensures EntryComplete(small, result[n]) ==> EntryComplete(big, result[n])
    {
      RewriteEntryStable(small, big, tree, R, prefix, n);
      if IsDir(result[n].mode) && EntryComplete(small, result[n]) {
        CompleteGrows(small, big, result[n].id);
      }
    }
  }

  ghost predicate EntryComplete(store: set<Oid>, e: Entry) {
    IsDir(e.mode) ==> e.id in store && Complete(store, e.id)
  }

  lemma EntriesAreRewrite(objects: set<Oid>, tree: Oid, R: Changes, prefix: Path, result: map<Name, Entry>)
    requires tree.TreeId? && result.Keys == tree.entries.Keys + ChildNames(R, |prefix|)
    requires forall n :: n in result ==> RewriteEntry(objects, tree, R, prefix, n) == Some(result[n])
    ensures Rewrite(objects, tree, R, prefix) == Some(TreeId(result))
  {
    assert Rewrite(objects, tree, R, prefix).value.entries == result;
  }
}
