/** The one list, sorted by path, that a set of files with distinct paths has. */
module SortedFiles {
  import opened Framing
  import opened Lexicographic

  predicate Distinct(files: seq<Record>) {
    forall i, j :: 0 <= i < j < |files| ==> files[i].path != files[j].path
  }

  predicate Ascending(files: seq<Record>) {
    forall i, j :: 0 <= i < j < |files| ==> Before(files[i].path, files[j].path)
  }

  function Insert(r: Record, files: seq<Record>): seq<Record> {
    if files == [] || Before(r.path, files[0].path) then [r] + files else [files[0]] + Insert(r, files[1..])
  }

  /** `sorted(files, key=...)`. */
  function Sort(files: seq<Record>): seq<Record> {
    if files == [] then [] else Insert(files[0], Sort(files[1..]))
  }

  lemma {:induction false} InsertKeeps(r: Record, files: seq<Record>)
    ensures multiset(Insert(r, files)) == multiset{r} + multiset(files)
  {
    if files == [] || Before(r.path, files[0].path) {
    } else {
      InsertKeeps(r, files[1..]);
      assert files == [files[0]] + files[1..];
    }
  }

  lemma {:induction false} SortKeeps(files: seq<Record>)
    ensures multiset(Sort(files)) == multiset(files)
  {
    if files != [] {
      SortKeeps(files[1..]);
      InsertKeeps(files[0], Sort(files[1..]));
      assert files == [files[0]] + files[1..];
    }
  }

  lemma SameMembers(a: seq<Record>, b: seq<Record>, r: Record)
    requires multiset(a) == multiset(b)
    ensures r in a <==> r in b
  {
    assert r in multiset(a) <==> r in multiset(b);
  }

  lemma {:induction false} InsertAscends(r: Record, files: seq<Record>)
    requires Ascending(files)
    requires forall i :: 0 <= i < |files| ==> files[i].path != r.path
    ensures Ascending(Insert(r, files))
  {
    var all := Insert(r, files);
    if files == [] {
    } else if Before(r.path, files[0].path) {
      forall j | 0 <= j < |files|
        ensures Before(r.path, files[j].path)
      {
        if j > 0 {
          BeforeChains(r.path, files[0].path, files[j].path);
        }
      }
    } else {
      var rest := files[1..];
      assert forall j :: 0 <= j < |rest| ==> rest[j] == files[j + 1];
      InsertAscends(r, rest);
      InsertKeeps(r, rest);
      BeforeTotal(files[0].path, r.path);
      forall x | x in Insert(r, rest)
        ensures Before(files[0].path, x.path)
      {
        assert x in multiset(Insert(r, rest));
        if x != r {
          assert x in multiset(rest);
          var j :| 0 <= j < |rest| && rest[j] == x;
        }
      }
      hide Insert, Before;
    }
  }

  lemma {:induction false} SortAscends(files: seq<Record>)
    requires Distinct(files)
    ensures Ascending(Sort(files))
  {
    if files != [] {
      var rest := files[1..];
      assert forall j :: 0 <= j < |rest| ==> rest[j] == files[j + 1];
      SortAscends(rest);
      SortKeeps(rest);
      forall i | 0 <= i < |Sort(rest)|
        ensures Sort(rest)[i].path != files[0].path
      {
        SameMembers(Sort(rest), rest, Sort(rest)[i]);
        var j :| 0 <= j < |rest| && rest[j] == Sort(rest)[i];
      }
      InsertAscends(files[0], Sort(rest));
    }
  }

  lemma HeadIsLeast(a: seq<Record>, r: Record)
    requires Ascending(a) && r in a
    ensures r == a[0] || Before(a[0].path, r.path)
  {
    var j :| 0 <= j < |a| && a[j] == r;
  }

  lemma SameHead(a: seq<Record>, b: seq<Record>)
    requires Ascending(a) && Ascending(b) && multiset(a) == multiset(b) && a != [] && b != []
    ensures a[0] == b[0]
  {
    hide Before;
    SameMembers(a, b, a[0]);
    SameMembers(a, b, b[0]);
    HeadIsLeast(a, b[0]);
    HeadIsLeast(b, a[0]);
    if a[0] != b[0] {
      BeforeIsOneWay(a[0].path, b[0].path);
    }
  }

  lemma SameTails(a: seq<Record>, b: seq<Record>)
    requires multiset(a) == multiset(b) && a != [] && b != [] && a[0] == b[0]
    ensures multiset(a[1..]) == multiset(b[1..])
  {
    assert a == [a[0]] + a[1..] && b == [b[0]] + b[1..];
    assert multiset(a[1..]) == multiset(a) - multiset{a[0]};
    assert multiset(b[1..]) == multiset(b) - multiset{b[0]};
  }

  lemma SameSize(a: seq<Record>, b: seq<Record>)
    requires multiset(a) == multiset(b)
    ensures |a| == |b|
  {
    assert |multiset(a)| == |a| && |multiset(b)| == |b|;
  }

  /** Two strictly ascending lists of the same files are the same list. */
  lemma {:induction false} AscendingIsUnique(a: seq<Record>, b: seq<Record>)
    requires Ascending(a) && Ascending(b) && multiset(a) == multiset(b)
    ensures a == b
  {
    hide Before;
    SameSize(a, b);
    if a != [] {
      SameHead(a, b);
      SameTails(a, b);
      AscendingIsUnique(a[1..], b[1..]);
      assert a == [a[0]] + a[1..] && b == [b[0]] + b[1..];
    }
  }

  lemma DistinctIsCounted(a: seq<Record>, b: seq<Record>)
    requires Distinct(a) && multiset(a) == multiset(b)
    ensures Distinct(b)
  {
    forall i, j | 0 <= i < j < |b|
      ensures b[i].path != b[j].path
    {
      SameMembers(a, b, b[i]);
      SameMembers(a, b, b[j]);
      var k :| 0 <= k < |a| && a[k] == b[i];
      var l :| 0 <= l < |a| && a[l] == b[j];
      if k == l {
        TwiceIsTwo(b, i, j);
        OnceIsOne(a, k);
      }
    }
  }

  lemma TwiceIsTwo(b: seq<Record>, i: nat, j: nat)
    requires i < j < |b| && b[i] == b[j]
    ensures multiset(b)[b[i]] >= 2
  {
    assert b == b[..j] + b[j..];
    assert b[..j][i] == b[i] && b[j..][0] == b[j];
    assert b[i] in multiset(b[..j]) && b[j] in multiset(b[j..]);
  }

  lemma OnceIsOne(a: seq<Record>, k: nat)
    requires Distinct(a) && k < |a|
    ensures multiset(a)[a[k]] == 1
  {
    assert a == a[..k] + [a[k]] + a[k + 1..];
    assert a[k] !in a[..k] && a[k] !in a[k + 1..];
  }

  /** However the files were collected, sorting them gives one and the same list. */
  lemma SortIgnoresOrder(a: seq<Record>, b: seq<Record>)
    requires Distinct(a) && multiset(a) == multiset(b)
    ensures Sort(a) == Sort(b)
  {
    DistinctIsCounted(a, b);
    SortAscends(a);
    SortAscends(b);
    SortKeeps(a);
    SortKeeps(b);
    AscendingIsUnique(Sort(a), Sort(b));
  }
}
