/** Git objects and recursive trees, after git_changesets/local.py.

    An object id is the term that describes the object it names, so two ids are equal exactly
    when the contents are: this is the injective-hash reading of SHA-1 and SHA-256.  An object
    store is the set of ids whose objects are present; looking up an absent id raises. */
module GitTrees {
  import opened Options

  type byte = b: int | 0 <= b < 256
  type Name = string
  type Path = seq<Name>

  datatype CommitMeta = CommitMeta(
    author: string, committer: string, message: string,
    authorTime: int, commitTime: int, authorZone: int, commitZone: int)

  datatype Entry = Entry(mode: nat, id: Oid)

  datatype Oid =
    | BlobId(data: seq<byte>)
    | TreeId(entries: map<Name, Entry>)
    | CommitId(tree: Oid, parents: seq<Oid>, meta: CommitMeta)
    | OtherId(tag: nat)

  /** Ok, an expected refusal with its code (`ToolExecutionError`), or any other exception. */
  datatype Outcome<+T> = Ok(value: T) | Refused(code: string) | Crashed {
    predicate IsFailure() {
      !Ok?
    }

    function PropagateFailure<U>(): Outcome<U>
      requires !Ok?
    {
      if Refused? then Refused(code) else Crashed
    }

    function Extract(): T
      requires Ok?
    {
      value
    }
  }

  /** `stat.S_ISDIR`: the file-type bits under mask 0o170000 are 0o040000. */
  predicate IsDir(mode: nat) {
    mode / 0x1000 % 16 == 4
  }

  const REGULAR_MODES: set<nat> := {0x81A4, 0x81ED}  // 0o100644 and 0o100755

  // ---------------------------------------------------------------- reading trees

  /** What `_tree_entry` returns for one path. */
  function TreeEntry(store: set<Oid>, tree: Oid, parts: Path): Outcome<Entry>
    requires tree.TreeId?
  {
    if parts == [] then Refused("git_head_path_invalid")
    else if parts[0] !in tree.entries then Refused("git_head_path_missing")
    else
      var e := tree.entries[parts[0]];
      if |parts| == 1 then Ok(e)
      else if !IsDir(e.mode) then Refused("git_head_path_invalid")
      else if e.id !in store then Crashed
      else if !e.id.TreeId? then Refused("git_tree_invalid")
      else TreeEntry(store, e.id, parts[1..])
  }

  method FindTreeEntry(store: set<Oid>, tree: Oid, parts: Path) returns (r: Outcome<Entry>)
    requires tree.TreeId?
    ensures r == TreeEntry(store, tree, parts)
    ensures r.Refused? ==> r.code in {"git_head_path_invalid", "git_head_path_missing", "git_tree_invalid"}
    ensures parts == [] ==> r == Refused("git_head_path_invalid")
    ensures parts != [] && parts[0] !in tree.entries ==> r == Refused("git_head_path_missing")
    ensures parts != [] && parts[0] in tree.entries ==>
      var e := tree.entries[parts[0]];
      if |parts| == 1 then r == Ok(e)
      else if !IsDir(e.mode) then r == Refused("git_head_path_invalid")
      else if e.id !in store then r == Crashed
      else if !e.id.TreeId? then r == Refused("git_tree_invalid")
      else r == TreeEntry(store, e.id, parts[1..])
  {
    var current := tree;
    for offset := 0 to |parts|
      invariant current.TreeId?
      invariant offset == |parts| ==> parts == []
      invariant TreeEntry(store, tree, parts) == TreeEntry(store, current, parts[offset..])
    {
      var part := parts[offset];
      assert parts[offset..][1..] == parts[offset + 1..];
      if part !in current.entries {
        return Refused("git_head_path_missing");
      }
      var e := current.entries[part];
      if offset == |parts| - 1 {
        return Ok(e);
      }
      if !IsDir(e.mode) {
        return Refused("git_head_path_invalid");
      }
      if e.id !in store {
        return Crashed;
      }
      if !e.id.TreeId? {
        return Refused("git_tree_invalid");
      }
      current := e.id;
    }
    return Refused("git_head_path_invalid");
  }

  /** The file found at `p`, reading directories by content. */
  function LeafAt(tree: Oid, p: Path): Option<Entry>
    decreases |p|
  {
    if !tree.TreeId? || p == [] || p[0] !in tree.entries then None
    else
      var e := tree.entries[p[0]];
      if |p| == 1 then (if IsDir(e.mode) then None else Some(e))
      else if IsDir(e.mode) then LeafAt(e.id, p[1..])
      else None
  }

  /** Every directory below `tree` is present in the store and is a tree. */
  ghost predicate Complete(store: set<Oid>, tree: Oid) {
    tree.TreeId? &&
    forall n :: n in tree.entries ==> IsDir(tree.entries[n].mode) ==>
      tree.entries[n].id in store && Complete(store, tree.entries[n].id)
  }

  ghost predicate CompleteBelow(store: set<Oid>, tree: Oid, names: set<Name>)
    requires tree.TreeId? && names <= tree.entries.Keys
  {
    forall n :: n in names ==> IsDir(tree.entries[n].mode) ==>
      tree.entries[n].id in store && Complete(store, tree.entries[n].id)
  }

  lemma {:induction false} CompleteGrows(small: set<Oid>, big: set<Oid>, tree: Oid)
    requires small <= big
    ensures Complete(small, tree) ==> Complete(big, tree)
  {
    if Complete(small, tree) {
      forall n | n in tree.entries {
        CompleteGrows(small, big, tree.entries[n].id);
      }
    }
  }

  /** Every path of `below`, with `n` in front. */
  function Under(n: Name, below: map<Path, Entry>): map<Path, Entry> {
    map p | p in (set q | q in below :: [n] + q) :: below[p[1..]]
  }

  lemma UnderAt(n: Name, below: map<Path, Entry>, p: Path)
    ensures p in Under(n, below) <==> p != [] && p[0] == n && p[1..] in below
    ensures p in Under(n, below) ==> Under(n, below)[p] == below[p[1..]]
  {
    if p != [] && p[0] == n && p[1..] in below {
      assert p == [n] + p[1..];
    }
  }

  /** What one entry of a tree contributes to the flattened tree. */
  ghost function FlatEntry(n: Name, e: Entry): map<Path, Entry>
    decreases e, 0
  {
    if !IsDir(e.mode) then map[[n] := e]
    else if e.id.TreeId? then Under(n, FlattenNames(e.id, e.id.entries.Keys))
    else map[]
  }

  /** The part of the flattened tree that lies below the given names. */
  ghost function FlattenNames(tree: Oid, names: set<Name>): map<Path, Entry>
    requires tree.TreeId? && names <= tree.entries.Keys
    decreases tree, names
  {
    if names == {} then map[]
    else
      var n :| n in names;
      FlattenNames(tree, names - {n}) + FlatEntry(n, tree.entries[n])
  }

  /** The flattened tree: what `_tree_entries` returns when nothing is missing. */
  ghost function Flatten(tree: Oid): map<Path, Entry>
    requires tree.TreeId?
  {
    FlattenNames(tree, tree.entries.Keys)
  }

  ghost predicate Holds(m: map<Path, Entry>, p: Path, leaf: Option<Entry>) {
    (p in m <==> leaf.Some?) && (p in m ==> leaf == Some(m[p]))
  }

  lemma {:induction false} FlatEntryAt(tree: Oid, n: Name, p: Path)
    requires tree.TreeId? && n in tree.entries
    ensures Holds(FlatEntry(n, tree.entries[n]), p, if p != [] && p[0] == n then LeafAt(tree, p) else None)
    decreases tree, 0
  {
    var e := tree.entries[n];
    if !IsDir(e.mode) {
      if p != [] && p[0] == n && |p| == 1 {
        assert p == [n];
      }
    } else if e.id.TreeId? {
      var below := FlattenNames(e.id, e.id.entries.Keys);
      UnderAt(n, below, p);
      if p != [] {
        FlattenNamesAt(e.id, e.id.entries.Keys, p[1..]);
      }
    }
  }

  lemma {:induction false} FlattenNamesAt(tree: Oid, names: set<Name>, p: Path)
    requires tree.TreeId? && names <= tree.entries.Keys
    ensures Holds(FlattenNames(tree, names), p, if p != [] && p[0] in names then LeafAt(tree, p) else None)
    decreases tree, 1, names
  {
    if names != {} {
      var n :| n in names && FlattenNames(tree, names) ==
        FlattenNames(tree, names - {n}) + FlatEntry(n, tree.entries[n]);
      FlattenNamesAt(tree, names - {n}, p);
      FlatEntryAt(tree, n, p);
    }
  }

  /** The flattened tree maps exactly the file paths to what is found there. */
  lemma FlattenAt(tree: Oid, p: Path)
    requires tree.TreeId?
    ensures Holds(Flatten(tree), p, LeafAt(tree, p))
  {
    FlattenNamesAt(tree, tree.entries.Keys, p);
  }

  lemma FlattenStep(tree: Oid, visited: set<Name>, n: Name)
    requires tree.TreeId? && visited <= tree.entries.Keys && n in tree.entries.Keys - visited
    ensures FlattenNames(tree, visited + {n}) == FlattenNames(tree, visited) + FlatEntry(n, tree.entries[n])
  {
    var l, r := FlattenNames(tree, visited + {n}), FlattenNames(tree, visited) + FlatEntry(n, tree.entries[n]);
    forall p: Path
      ensures p in l <==> p in r
      ensures p in l ==> l[p] == r[p]
    {
      FlattenNamesAt(tree, visited + {n}, p);
      FlattenNamesAt(tree, visited, p);
      FlatEntryAt(tree, n, p);
    }
  }

  /** `_tree_entries`: it succeeds exactly on complete trees and then returns the flattened tree.
      (The source passes the path prefix down; here it is put in front on the way back.) */
  method TreeEntries(store: set<Oid>, tree: Oid) returns (r: Outcome<map<Path, Entry>>)
    requires tree.TreeId?
    ensures r.Ok? <==> Complete(store, tree)
    ensures r.Ok? ==> r.value == Flatten(tree)
    decreases tree, 1
  {
    hide FlattenNames, FlatEntry;
    var entries: map<Path, Entry> := map[];
    ghost var visited: set<Name> := {};
    var pending := tree.entries.Keys;
    NothingFlattened(tree);
    while pending != {}
      invariant visited + pending == tree.entries.Keys && visited !! pending
      invariant CompleteBelow(store, tree, visited)
      invariant entries == FlattenNames(tree, visited)
    {
      var name :| name in pending;
      FlattenStep(tree, visited, name);
      var below :- EntriesBelow(store, tree, name);
      entries := entries + below;
      visited, pending := visited + {name}, pending - {name};
    }
    return Ok(entries);
  }

  lemma NothingFlattened(tree: Oid)
    requires tree.TreeId?
    ensures FlattenNames(tree, {}) == map[]
  {
  }

  /** One entry of a tree, and everything below it. */
  method EntriesBelow(store: set<Oid>, tree: Oid, name: Name) returns (r: Outcome<map<Path, Entry>>)
    requires tree.TreeId? && name in tree.entries
    ensures var e := tree.entries[name]; r.Ok? <==> (IsDir(e.mode) ==> e.id in store && Complete(store, e.id))
    ensures r.Ok? ==> r.value == FlatEntry(name, tree.entries[name])
    decreases tree, 0
  {
    var e := tree.entries[name];
    if !IsDir(e.mode) {
      return Ok(map[[name] := e]);
    }
    if e.id !in store {
      return Crashed;
    }
    if !e.id.TreeId? {
      assert !Complete(store, e.id);
      return Refused("git_tree_invalid");
    }
    var child :- TreeEntries(store, e.id);
    return Ok(Under(name, child));
  }
}
