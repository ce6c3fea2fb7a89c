/** What the adapter's digest and the worker's staging accept of a directory tree, and what they hash. */
module SnapshotTrees {
  import opened Framing
  import opened Lexicographic
  import opened SortedFiles

  const MAX_FILES := 4096
  const MAX_FILE_BYTES := 2 * 1024 * 1024
  const MAX_SOURCE_BYTES := 32 * 1024 * 1024

  /** `Link(true)` is a symbolic link to a directory, which `os.walk` lists among the directories. */
  datatype Node = Dir(children: seq<Child>) | File(data: Bytes) | Link(toDirectory: bool) | Special
  datatype Child = Child(name: Bytes, node: Node)

  /** SHA-256 as a free constructor: equal digests come from equal streams. */
  datatype Digest = Sha256(stream: Bytes)

  const SLASH: byte := 47

  // ---------------------------------------------------------------- names

  function Ascii(s: string): (r: Bytes)
    requires forall i :: 0 <= i < |s| ==> s[i] as int < 128
    ensures |r| == |s|
  {
    seq(|s|, i requires 0 <= i < |s| => s[i] as int)
  }

  /** `_excluded` and `_sensitive`, for one part of a path. */
  predicate Excluded(name: Bytes) {
    || Ascii(".env") <= name
    || name in [Ascii(".git"), Ascii(".mypy_cache"), Ascii(".next"), Ascii(".pytest_cache"), Ascii(".ruff_cache"),
                Ascii(".tox"), Ascii(".venv"), Ascii("__pycache__"), Ascii("coverage"), Ascii("dist"),
                Ascii("node_modules")]
  }

  /** What every file system promises of the names in one directory. */
  predicate ProperName(name: Bytes) {
    name != [] && name != Ascii(".") && name != Ascii("..") && SLASH !in name && NulFree(name)
  }

  /** A directory is a set of names; it is listed here in byte order, the order the worker visits it in. */
  predicate WellFormed(children: seq<Child>) {
    && (forall i, j :: 0 <= i < j < |children| ==> Before(children[i].name, children[j].name))
    && (forall i :: 0 <= i < |children| ==>
          ProperName(children[i].name) && (children[i].node.Dir? ==> WellFormed(children[i].node.children)))
  }

  predicate Continues(s: Bytes, i: nat) {
    i < |s| && 0x80 <= s[i] <= 0xBF
  }

  /** The length of the UTF-8 character `s` starts with, as section 4 of RFC 3629 has it; 0 if there is none. */
  function CharLength(s: Bytes): (n: nat)
    ensures n <= |s|
  {
    if s == [] then 0
    else if s[0] < 0x80 then 1
    else if !Continues(s, 1) then 0
    else if 0xC2 <= s[0] <= 0xDF then 2
    else if !Continues(s, 2) then 0
    else if || (s[0] == 0xE0 && 0xA0 <= s[1])
            || 0xE1 <= s[0] <= 0xEC || (s[0] == 0xED && s[1] <= 0x9F) || 0xEE <= s[0] <= 0xEF then 3
    else if !Continues(s, 3) then 0
    else if (s[0] == 0xF0 && 0x90 <= s[1]) || 0xF1 <= s[0] <= 0xF3 || (s[0] == 0xF4 && s[1] <= 0x8F) then 4
    else 0
  }

  /** Whether the name the bytes decode to (undecodable bytes escaped) can be encoded again. */
  predicate Encodable(s: Bytes) {
    s == [] || (CharLength(s) > 0 && Encodable(s[CharLength(s)..]))
  }

  lemma CharLengthOfPrefix(a: Bytes, b: Bytes)
    requires CharLength(a) > 0
    ensures CharLength(a + b) == CharLength(a)
  {
    var s := a + b;
    assert forall i :: 0 <= i < |a| ==> s[i] == a[i];
  }

  lemma {:induction false} EncodableJoined(a: Bytes, b: Bytes)
    requires Encodable(a) && Encodable(b)
    ensures Encodable(a + b)
  {
    if a == [] {
      assert a + b == b;
    } else {
      CharLengthOfPrefix(a, b);
      EncodableJoined(a[CharLength(a)..], b);
      assert (a + b)[CharLength(a)..] == a[CharLength(a)..] + b;
    }
  }

  // ---------------------------------------------------------------- what is counted

  /** Directories and files that are not excluded, at every depth. */
  function Entries(children: seq<Child>): nat {
    if children == [] then 0
    else
      var n := |children| - 1;
      var child := children[n];
      Entries(children[..n])
      + if Excluded(child.name) then 0 else if child.node.Dir? then 1 + Entries(child.node.children) else 1
  }

  function TotalBytes(children: seq<Child>): nat {
    if children == [] then 0
    else
      var n := |children| - 1;
      var child := children[n];
      TotalBytes(children[..n])
      + if Excluded(child.name) then 0
        else if child.node.Dir? then TotalBytes(child.node.children)
        else if child.node.File? then |child.node.data| else 0
  }

  /** Every admitted entry is a directory or a regular file of admissible size. */
  predicate Clean(children: seq<Child>) {
    forall i :: 0 <= i < |children| && !Excluded(children[i].name) ==>
      match children[i].node
      case Dir(sub) => Clean(sub)
      case File(data) => |data| <= MAX_FILE_BYTES
      case _ => false
  }

  /** Every name listed in a directory that is entered, excluded names included, is valid UTF-8. */
  predicate NamesEncodable(children: seq<Child>) {
    forall i :: 0 <= i < |children| ==>
      && Encodable(children[i].name)
      && (!Excluded(children[i].name) && children[i].node.Dir? ==> NamesEncodable(children[i].node.children))
  }

  // ---------------------------------------------------------------- what is hashed

  /** The admitted regular files below a directory, in listing order. */
  function Files(prefix: Bytes, children: seq<Child>): seq<Record>
    decreases children
  {
    if children == [] then []
    else
      var n := |children| - 1;
      var child := children[n];
      Files(prefix, children[..n])
      + if Excluded(child.name) then []
        else
          match child.node
          case Dir(sub) => Files(prefix + child.name + [SLASH], sub)
          case File(data) => [Record(prefix + child.name, data)]
          case _ => []
  }

  /** The files right in a directory. */
  function OwnFiles(prefix: Bytes, children: seq<Child>): seq<Record> {
    if children == [] then []
    else
      var n := |children| - 1;
      OwnFiles(prefix, children[..n])
      + if !Excluded(children[n].name) && children[n].node.File?
        then [Record(prefix + children[n].name, children[n].node.data)] else []
  }

  /** The files in its subdirectories. */
  function DeepFiles(prefix: Bytes, children: seq<Child>): seq<Record>
    decreases children, 0
  {
    if children == [] then []
    else
      var n := |children| - 1;
      DeepFiles(prefix, children[..n])
      + if !Excluded(children[n].name) && children[n].node.Dir?
        then WalkedFiles(prefix + children[n].name + [SLASH], children[n].node.children) else []
  }

  /** The order of a top-down walk: a directory's own files first. */
  function WalkedFiles(prefix: Bytes, children: seq<Child>): seq<Record>
    decreases children, 1
  {
    OwnFiles(prefix, children) + DeepFiles(prefix, children)
  }

  /** Both orders visit the same files. */
  lemma {:induction false} WalkVisitsTheSame(prefix: Bytes, children: seq<Child>)
    ensures multiset(WalkedFiles(prefix, children)) == multiset(Files(prefix, children))
    decreases children
  {
    if children != [] {
      var n := |children| - 1;
      var child := children[n];
      WalkVisitsTheSame(prefix, children[..n]);
      if child.node.Dir? {
        WalkVisitsTheSame(prefix + child.name + [SLASH], child.node.children);
      }
    }
  }

  // ---------------------------------------------------------------- paths are distinct, NUL-free, encodable

  /** The path is that of the child called `name` of the directory `prefix`, or one below it. */
  predicate Owned(prefix: Bytes, path: Bytes, name: Bytes) {
    var stem := prefix + name;
    stem <= path && (|stem| < |path| ==> path[|stem|] == SLASH)
  }

  lemma OwnerIsUnique(prefix: Bytes, path: Bytes, a: Bytes, b: Bytes)
    requires Owned(prefix, path, a) && Owned(prefix, path, b)
    requires SLASH !in a && SLASH !in b
    ensures a == b
  {
    var rest := path[|prefix|..];
    assert a <= rest && (|a| < |rest| ==> rest[|a|] == SLASH) by {
      assert (prefix + a)[|prefix|..] == a;
    }
    assert b <= rest && (|b| < |rest| ==> rest[|b|] == SLASH) by {
      assert (prefix + b)[|prefix|..] == b;
    }
    if |a| < |b| {
      InsideLonger(a, b, rest);
    } else if |b| < |a| {
      InsideLonger(b, a, rest);
    }
  }

  lemma InsideLonger(a: Bytes, b: Bytes, rest: Bytes)
    requires a <= rest && b <= rest && |a| < |b| && SLASH !in b
    ensures rest[|a|] != SLASH
  {
    assert b[|a|] == rest[|a|];
  }

  lemma {:induction false} EveryFileHasAnOwner(prefix: Bytes, children: seq<Child>, r: Record) returns (k: nat)
    requires r in Files(prefix, children)
    ensures k < |children| && Owned(prefix, r.path, children[k].name)
    decreases children
  {
    var n := |children| - 1;
    if r in Files(prefix, children[..n]) {
      k := EveryFileHasAnOwner(prefix, children[..n], r);
    } else {
      k := n;
      if children[n].node.Dir? {
        var _ := EveryFileHasAnOwner(prefix + children[n].name + [SLASH], children[n].node.children, r);
      }
    }
  }

  lemma {:induction false} FilesAreDistinct(prefix: Bytes, children: seq<Child>)
    requires WellFormed(children)
    ensures Distinct(Files(prefix, children))
    decreases children
  {
    if children != [] {
      var n := |children| - 1;
      var child := children[n];
      var front, last := Files(prefix, children[..n]), Files(prefix, [child]);
      FilesAreDistinct(prefix, children[..n]);
      OneChild(prefix, children);
      if child.node.Dir? {
        FilesAreDistinct(prefix + child.name + [SLASH], child.node.children);
      }
      forall i, j | 0 <= i < |front| && 0 <= j < |last|
        ensures front[i].path != last[j].path
      {
        SiblingsDiffer(prefix, children, front[i], last[j]);
      }
      hide Files, Excluded, WellFormed;
    }
  }

  lemma OneChild(prefix: Bytes, children: seq<Child>)
    requires children != []
    ensures var n := |children| - 1; var child := children[n];
      && Files(prefix, children) == Files(prefix, children[..n]) + Files(prefix, [child])
      && (child.node.Dir? ==>
            Files(prefix, [child]) in [[], Files(prefix + child.name + [SLASH], child.node.children)])
      && (!child.node.Dir? ==> |Files(prefix, [child])| <= 1)
  {
    var child := children[|children| - 1];
    assert [child][..0] == [];
    assert Files(prefix, [child][..0]) == [];
    if child.node.Dir? && !Excluded(child.name) {
      var deeper := Files(prefix + child.name + [SLASH], child.node.children);
      assert [] + deeper == deeper;
    }
  }

  lemma SiblingsDiffer(prefix: Bytes, children: seq<Child>, a: Record, b: Record)
    requires WellFormed(children) && children != []
    requires a in Files(prefix, children[..|children| - 1]) && b in Files(prefix, [children[|children| - 1]])
    ensures a.path != b.path
  {
    var k := EveryFileHasAnOwner(prefix, children[..|children| - 1], a);
    var l := EveryFileHasAnOwner(prefix, [children[|children| - 1]], b);
    if a.path == b.path {
      OwnerIsUnique(prefix, a.path, children[k].name, children[|children| - 1].name);
      BeforeIsOneWay(children[k].name, children[|children| - 1].name);
    }
  }

  lemma {:induction false} PathsAreNulFree(prefix: Bytes, children: seq<Child>, r: Record)
    requires WellFormed(children) && NulFree(prefix) && r in Files(prefix, children)
    ensures NulFree(r.path)
    decreases children
  {
    var n := |children| - 1;
    if r in Files(prefix, children[..n]) {
      PathsAreNulFree(prefix, children[..n], r);
    } else if children[n].node.Dir? {
      PathsAreNulFree(prefix + children[n].name + [SLASH], children[n].node.children, r);
    }
  }

  lemma {:induction false} PathsAreEncodable(prefix: Bytes, children: seq<Child>, r: Record)
    requires NamesEncodable(children) && Encodable(prefix) && r in Files(prefix, children)
    ensures Encodable(r.path)
    decreases children
  {
    var n := |children| - 1;
    EncodableJoined(prefix, children[n].name);
    if r in Files(prefix, children[..n]) {
      PathsAreEncodable(prefix, children[..n], r);
    } else if children[n].node.Dir? {
      EncodableJoined(prefix + children[n].name, [SLASH]);
      PathsAreEncodable(prefix + children[n].name + [SLASH], children[n].node.children, r);
    }
  }

  // ---------------------------------------------------------------- the two verdicts

  datatype Verdict = Refused | Digested(digest: Digest)

  predicate WithinBounds(tree: seq<Child>) {
    Entries(tree) <= MAX_FILES && TotalBytes(tree) <= MAX_SOURCE_BYTES
  }

  predicate PathsEncode(files: seq<Record>) {
    forall i :: 0 <= i < |files| ==> Encodable(files[i].path)
  }

  /** What `source_digest` answers. */
  function AdapterVerdict(tree: seq<Child>): Verdict {
    var files := WalkedFiles([], tree);
    if Clean(tree) && WithinBounds(tree) && PathsEncode(files) then Digested(Sha256(Frame(Sort(files)))) else Refused
  }

  /** What `stage_snapshot` answers. */
  function WorkerVerdict(tree: seq<Child>): Verdict {
    if NamesEncodable(tree) && Clean(tree) && WithinBounds(tree) && Entries(tree) > 0
    then Digested(Sha256(Frame(Sort(Files([], tree))))) else Refused
  }

  lemma OrdersAgree(tree: seq<Child>)
    requires WellFormed(tree)
    ensures Sort(WalkedFiles([], tree)) == Sort(Files([], tree))
    ensures PathsEncode(WalkedFiles([], tree)) == PathsEncode(Files([], tree))
  {
    var walked, listed := WalkedFiles([], tree), Files([], tree);
    WalkVisitsTheSame([], tree);
    FilesAreDistinct([], tree);
    SortIgnoresOrder(listed, walked);
    forall i | 0 <= i < |walked|
      ensures walked[i] in listed
    {
      SameMembers(walked, listed, walked[i]);
    }
    forall i | 0 <= i < |listed|
      ensures listed[i] in walked
    {
      SameMembers(walked, listed, listed[i]);
    }
  }

  /**
    * Main result. On a tree with an admitted entry, the worker stages what the adapter digests, except that
    * it also refuses a name it lists and cannot encode; whenever it stages, the two digests are equal.
    */
  lemma TraversalsAgree(tree: seq<Child>)
    requires WellFormed(tree) && Entries(tree) > 0
    ensures WorkerVerdict(tree).Digested? <==> AdapterVerdict(tree).Digested? && NamesEncodable(tree)
    ensures WorkerVerdict(tree).Digested? ==> WorkerVerdict(tree) == AdapterVerdict(tree)
  {
    OrdersAgree(tree);
    var listed := Files([], tree);
    if NamesEncodable(tree) {
      forall i | 0 <= i < |listed|
        ensures Encodable(listed[i].path)
      {
        PathsAreEncodable([], tree, listed[i]);
      }
    }
  }

  /** With nothing admitted the adapter digests the empty stream and the worker refuses. */
  lemma EmptySource(tree: seq<Child>)
    requires Entries(tree) == 0
    ensures WorkerVerdict(tree) == Refused && AdapterVerdict(tree) == Digested(Sha256([]))
  {
    NothingAdmitted(tree);
  }

  lemma {:induction false} NothingAdmitted(tree: seq<Child>)
    requires Entries(tree) == 0
    ensures forall i :: 0 <= i < |tree| ==> Excluded(tree[i].name)
    ensures TotalBytes(tree) == 0 && OwnFiles([], tree) == [] && DeepFiles([], tree) == []
  {
    if tree != [] {
      NothingAdmitted(tree[..|tree| - 1]);
    }
  }

  /** An excluded file whose name is not UTF-8 is enough for the two to disagree. */
  lemma ExcludedNameDisagrees(data: Bytes)
    requires |data| <= MAX_FILE_BYTES
    ensures var tree := HiddenAndShown(data);
      && WellFormed(tree) && Entries(tree) == 1
      && AdapterVerdict(tree).Digested? && WorkerVerdict(tree) == Refused
  {
    hide Excluded, Entries, TotalBytes, Encodable, WalkedFiles, Sort, Frame, Files, WellFormed;
    var tree := HiddenAndShown(data);
    HiddenAndShownFacts(data);
    UndecodableTail([46, 101, 110, 118]);
    assert tree[0].name == [46, 101, 110, 118] + [0xFF];
    assert !NamesEncodable(tree);
  }

  /** An empty file called `.env`, byte 255, and a file called `a`. */
  function HiddenAndShown(data: Bytes): seq<Child> {
    [Child([46, 101, 110, 118, 0xFF], File([])), Child([97], File(data))]
  }

  lemma HiddenAndShownFacts(data: Bytes)
    ensures var tree := HiddenAndShown(data);
      && WellFormed(tree) && Excluded(tree[0].name) && !Excluded(tree[1].name)
      && Entries(tree) == 1 && TotalBytes(tree) == |data|
      && WalkedFiles([], tree) == [Record([97], data)] && Encodable([97])
  {
    var tree := HiddenAndShown(data);
    var hidden, shown := tree[0].name, tree[1].name;
    assert Excluded(hidden) by {
      assert Ascii(".env") == hidden[..4];
    }
    ShortNamesAreShown(shown);
    assert Ascii(".") == [46] && Ascii("..") == [46, 46];
    assert Before(hidden, shown);
    assert [97][1..] == [];
    hide Before, Ascii, Excluded, WalkedFiles, Entries, TotalBytes;
    OneShown(tree);
  }

  lemma ShortNamesAreShown(name: Bytes)
    requires |name| < 4
    ensures !Excluded(name)
  {
    hide Ascii;
  }

  lemma OneShown(tree: seq<Child>)
    requires |tree| == 2 && Excluded(tree[0].name) && !Excluded(tree[1].name) && tree[1].node.File?
    ensures Entries(tree) == 1 && TotalBytes(tree) == |tree[1].node.data|
    ensures WalkedFiles([], tree) == [Record(tree[1].name, tree[1].node.data)]
  {
    hide Excluded;
    assert tree[..1] == [tree[0]];
    NothingAdmitted(tree[..1]) by {
      assert [tree[0]][..0] == [];
    }
    assert [] + tree[1].name == tree[1].name;
  }

  lemma {:induction false} UndecodableTail(text: Bytes)
    requires forall i :: 0 <= i < |text| ==> text[i] < 0x80
    ensures !Encodable(text + [0xFF])
  {
    if text != [] {
      assert (text + [0xFF])[1..] == text[1..] + [0xFF];
      UndecodableTail(text[1..]);
    }
  }

  /** Equal digests mean equal sets of admitted files, paths and contents. */
  lemma DigestDeterminesFiles(a: seq<Child>, b: seq<Child>)
    requires WellFormed(a) && WellFormed(b)
    requires AdapterVerdict(a).Digested? && AdapterVerdict(a) == AdapterVerdict(b)
    ensures multiset(Files([], a)) == multiset(Files([], b))
  {
    SortedPathsAreNulFree(a);
    SortedPathsAreNulFree(b);
    FrameInjective(Sort(WalkedFiles([], a)), Sort(WalkedFiles([], b)));
    SortKeeps(WalkedFiles([], a));
    SortKeeps(WalkedFiles([], b));
    WalkVisitsTheSame([], a);
    WalkVisitsTheSame([], b);
  }

  lemma SortedPathsAreNulFree(tree: seq<Child>)
    requires WellFormed(tree)
    ensures forall i :: 0 <= i < |Sort(WalkedFiles([], tree))| ==> NulFree(Sort(WalkedFiles([], tree))[i].path)
  {
    var files := Sort(WalkedFiles([], tree));
    SortKeeps(WalkedFiles([], tree));
    WalkVisitsTheSame([], tree);
    forall i | 0 <= i < |files|
      ensures NulFree(files[i].path)
    {
      SameMembers(files, Files([], tree), files[i]);
      PathsAreNulFree([], tree, files[i]);
    }
  }
}
