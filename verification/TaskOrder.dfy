/** The canonical order of proposed tasks: `validate_dependency_graph` of
    developer_manager/contracts.py, Kahn's algorithm with a min-heap. */
module TaskOrder {
  import opened Lexicographic
  import opened Options

  /** A task key, by its code points. */
  datatype Key = Key(codes: Codes)

  datatype Task = Task(key: Key, deps: seq<Key>)

  datatype Rejection = DuplicateKey | SelfDependency | UnknownDependency | Cyclic
  datatype Validation = Accepted(tasks: seq<Task>) | Rejected(why: Rejection)

  /** Which keys a task waits for, by key. */
  type Graph = map<Key, set<Key>>

  // ---------------------------------------------------------------- the order of keys

  predicate Less(a: Key, b: Key) {
    Before(a.codes, b.codes)
  }

  lemma LessTotal(a: Key, b: Key)
    ensures Less(a, b) || a == b || Less(b, a)
    ensures !(Less(a, b) && (a == b || Less(b, a)))
  {
    BeforeTotal(a.codes, b.codes);
    if Less(a, b) {
      BeforeIsOneWay(a.codes, b.codes);
    }
  }

  lemma LessTransitive(a: Key, b: Key, c: Key)
    requires Less(a, b) && Less(b, c)
    ensures Less(a, c)
  {
    BeforeChains(a.codes, b.codes, c.codes);
  }

  // ---------------------------------------------------------------- graphs and orders

  function Elements<T(==)>(s: seq<T>): set<T> {
    set x | x in s
  }

  predicate Distinct<T(==)>(s: seq<T>) {
    forall i, j :: 0 <= i < j < |s| ==> s[i] != s[j]
  }

  predicate UniqueKeys(tasks: seq<Task>) {
    forall i, j :: 0 <= i < j < |tasks| ==> tasks[i].key != tasks[j].key
  }

  function KeysOf(tasks: seq<Task>): set<Key> {
    set i | 0 <= i < |tasks| :: tasks[i].key
  }

  predicate DependenciesExist(tasks: seq<Task>) {
    forall i :: 0 <= i < |tasks| ==> Known(tasks, tasks[i].deps)
  }

  predicate Known(tasks: seq<Task>, deps: seq<Key>) {
    forall j :: 0 <= j < |deps| ==> deps[j] in KeysOf(tasks)
  }

  function ByKey(tasks: seq<Task>): (r: map<Key, Task>)
    requires UniqueKeys(tasks)
    ensures r.Keys == KeysOf(tasks)
    ensures forall i :: 0 <= i < |tasks| ==> r[tasks[i].key] == tasks[i]
  {
    map i | 0 <= i < |tasks| :: tasks[i].key := tasks[i]
  }

  function GraphOf(tasks: seq<Task>): (g: Graph)
    requires UniqueKeys(tasks)
    ensures g.Keys == KeysOf(tasks)
  {
    var byKey := ByKey(tasks);
    map k | k in byKey :: Elements(byKey[k].deps)
  }

  predicate Closed(g: Graph) {
    forall k :: k in g ==> g[k] <= g.Keys
  }

  /** A walk along dependencies. */
  predicate IsWalk(g: Graph, w: seq<Key>) {
    forall i :: 0 <= i < |w| - 1 ==> w[i] in g && w[i + 1] in g[w[i]]
  }

  ghost predicate HasCycle(g: Graph) {
    exists w :: IsCycle(g, w)
  }

  predicate IsCycle(g: Graph, w: seq<Key>) {
    |w| >= 2 && IsWalk(g, w) && w[0] == w[|w| - 1]
  }

  /** An order of all keys in which every key comes after the keys it waits for. */
  predicate Topological(g: Graph, order: seq<Key>) {
    && Distinct(order) && Elements(order) == g.Keys
    && forall i :: 0 <= i < |order| ==> order[i] in g && g[order[i]] <= Elements(order[..i])
  }

  /** Keys whose dependencies are all done. */
  function Ready(g: Graph, done: set<Key>): set<Key> {
    set k | k in g && k !in done && g[k] <= done
  }

  predicate IsLeast(keys: set<Key>, k: Key) {
    k in keys && forall x :: x in keys ==> x == k || Less(k, x)
  }

  /** Each position holds the least key that was ready there. */
  predicate Greedy(g: Graph, order: seq<Key>) {
    forall i :: 0 <= i < |order| ==> IsLeast(Ready(g, Elements(order[..i])), order[i])
  }

  /** Lexicographic order on sequences of keys: equal, or smaller at the first difference. */
  ghost predicate LexLeq(a: seq<Key>, b: seq<Key>) {
    a == b || exists i :: FirstDifferenceAt(a, b, i)
  }

  predicate FirstDifferenceAt(a: seq<Key>, b: seq<Key>, i: int) {
    0 <= i < |a| && i < |b| && a[..i] == b[..i] && Less(a[i], b[i])
  }

  ghost predicate LeastTopological(g: Graph, order: seq<Key>) {
    Topological(g, order) && forall other :: Topological(g, other) ==> LexLeq(order, other)
  }

  // ---------------------------------------------------------------- facts about orders

  lemma ElementsSnoc<T>(s: seq<T>, x: T)
    ensures Elements(s + [x]) == Elements(s) + {x}
  {}

  lemma PrefixStep<T>(s: seq<T>, i: nat)
    requires i < |s|
    ensures Elements(s[..i + 1]) == Elements(s[..i]) + {s[i]}
  {
    assert s[..i + 1] == s[..i] + [s[i]];
    ElementsSnoc(s[..i], s[i]);
  }

  /** In a topological order the next key is always ready. */
  lemma NextIsReady(g: Graph, order: seq<Key>, i: nat)
    requires Topological(g, order) && i < |order|
    ensures order[i] in Ready(g, Elements(order[..i]))
  {}

  /** A complete greedy order is topological and no topological order is smaller. */
  lemma GreedyIsLeast(g: Graph, order: seq<Key>)
    requires Greedy(g, order) && Distinct(order) && Elements(order) == g.Keys
    ensures LeastTopological(g, order)
  {
    forall i | 0 <= i < |order|
      ensures order[i] in g && g[order[i]] <= Elements(order[..i])
    {
      assert IsLeast(Ready(g, Elements(order[..i])), order[i]);
    }
    forall other | Topological(g, other)
      ensures LexLeq(order, other)
    {
      SameLength(order, other);
      GreedyBeats(g, order, other, |order|);
    }
  }

  lemma {:induction false} SameLength<T>(a: seq<T>, b: seq<T>)
    requires Distinct(a) && Distinct(b) && Elements(a) == Elements(b)
    ensures |a| == |b|
  {
    DistinctSize(a);
    DistinctSize(b);
  }

  lemma {:induction false} DistinctSize<T>(s: seq<T>)
    requires Distinct(s)
    ensures |Elements(s)| == |s|
  {
    if s != [] {
      var n := |s| - 1;
      DistinctSize(s[..n]);
      PrefixStep(s, n);
      assert s[..n + 1] == s;
      assert s[n] !in Elements(s[..n]);
    }
  }

  lemma {:induction false} GreedyBeats(g: Graph, order: seq<Key>, other: seq<Key>, n: nat)
    requires Greedy(g, order) && Topological(g, other) && |order| == |other| && n <= |order|
    ensures order[..n] == other[..n] || exists i :: i < n && FirstDifferenceAt(order, other, i)
  {
    hide Greedy, Topological, FirstDifferenceAt;
    if n > 0 {
      GreedyBeats(g, order, other, n - 1);
      if order[..n - 1] == other[..n - 1] {
        GreedyBeatsNext(g, order, other, n - 1);
      }
    }
  }

  lemma GreedyBeatsNext(g: Graph, order: seq<Key>, other: seq<Key>, n: nat)
    requires Greedy(g, order) && Topological(g, other) && |order| == |other| && n < |order|
    requires order[..n] == other[..n]
    ensures order[..n + 1] == other[..n + 1] || FirstDifferenceAt(order, other, n)
  {
    NextIsReady(g, other, n);
    assert IsLeast(Ready(g, Elements(order[..n])), order[n]);
    assert order[..n + 1] == order[..n] + [order[n]] && other[..n + 1] == other[..n] + [other[n]];
    hide Ready, Topological;
  }

  /** There is only one least order. */
  lemma LeastUnique(g: Graph, a: seq<Key>, b: seq<Key>)
    requires LeastTopological(g, a) && LeastTopological(g, b)
    ensures a == b
  {
    if a != b {
      var i :| FirstDifferenceAt(a, b, i);
      var j :| FirstDifferenceAt(b, a, j);
      if i < j {
        assert b[..j][i] == a[..j][i];
      } else if j < i {
        assert b[..i][j] == a[..i][j];
      }
      LessTotal(a[i], b[i]);
      LessTotal(b[j], a[j]);
    }
  }

  // ---------------------------------------------------------------- cycles

  /** A topological order rules out cycles: along a walk the positions go down. */
  lemma TopologicalHasNoCycle(g: Graph, order: seq<Key>)
    requires Topological(g, order)
    ensures !HasCycle(g)
  {
    forall w | IsCycle(g, w)
      ensures false
    {
      var p := Position(g, order, w[0]);
      var q := WalkGoesDown(g, order, w, |w| - 1, p);
    }
  }

  lemma Position(g: Graph, order: seq<Key>, k: Key) returns (p: nat)
    requires Topological(g, order) && k in g
    ensures p < |order| && order[p] == k
  {
    p :| p < |order| && order[p] == k;
  }

  lemma {:induction false} WalkGoesDown(g: Graph, order: seq<Key>, w: seq<Key>, n: nat, p: nat) returns (q: nat)
    requires Topological(g, order) && IsWalk(g, w) && n < |w|
    requires p < |order| && order[p] == w[0]
    ensures q + n <= p && order[q] == w[n]
  {
    q := p;
    for i := 0 to n
      invariant q + i <= p && order[q] == w[i]
    {
      assert w[i + 1] in g[w[i]] && g[order[q]] <= Elements(order[..q]);
      var q' :| 0 <= q' < q && order[..q][q'] == w[i + 1];
      q := q';
    }
  }

  /** Where nothing is ready, walking from dependency to dependency must come back. */
  lemma StuckHasCycle(g: Graph, done: set<Key>)
    requires Closed(g) && done < g.Keys && Ready(g, done) == {}
    ensures HasCycle(g)
  {
    var start :| start in g && start !in done;
    var w := LongWalk(g, done, start, |g.Keys|);
    var i, j := Repeats(g.Keys, w);
    var c := w[i..j + 1];
    assert IsCycle(g, c) by {
      forall k | 0 <= k < |c| - 1
        ensures c[k] in g && c[k + 1] in g[c[k]]
      {
        assert c[k] == w[i + k] && c[k + 1] == w[i + k + 1];
      }
    }
  }

  lemma {:induction false} LongWalk(g: Graph, done: set<Key>, start: Key, n: nat) returns (w: seq<Key>)
    requires Closed(g) && Ready(g, done) == {} && start in g && start !in done
    ensures |w| == n + 1 && IsWalk(g, w)
    ensures forall i :: 0 <= i < |w| ==> w[i] in g.Keys
  {
    w := [start];
    while |w| <= n
      invariant 1 <= |w| <= n + 1 && IsWalk(g, w)
      invariant forall i :: 0 <= i < |w| ==> w[i] in g.Keys && w[i] !in done
      decreases n + 1 - |w|
    {
      var last := w[|w| - 1];
      assert last !in Ready(g, done);
      var next :| next in g[last] && next !in done;
      w := w + [next];
    }
  }

  lemma {:induction false} Repeats(keys: set<Key>, w: seq<Key>) returns (i: nat, j: nat)
    requires |w| > |keys| && forall k :: 0 <= k < |w| ==> w[k] in keys
    ensures i < j < |w| && w[i] == w[j]
  {
    if Distinct(w) {
      DistinctSize(w);
      SubsetSize(Elements(w), keys);
      assert false;
    } else {
      i, j :| 0 <= i < j < |w| && w[i] == w[j];
    }
  }

  lemma {:induction false} SubsetSize<T>(a: set<T>, b: set<T>)
    requires a <= b
    ensures |a| <= |b|
  {
    if a != {} {
      var x :| x in a;
      SubsetSize(a - {x}, b - {x});
    }
  }

  // ---------------------------------------------------------------- the algorithm

  /** `heapq.heappop`: the least element leaves the heap. */
  method PopLeast(heap: set<Key>) returns (k: Key)
    requires heap != {}
    ensures IsLeast(heap, k)
  {
    k :| k in heap;
    var pending := heap - {k};
    while pending != {}
      invariant k in heap && pending <= heap
      invariant forall x :: x in heap - pending ==> x == k || Less(k, x)
    {
      var x :| x in pending;
      LessTotal(k, x);
      if Less(x, k) {
        forall y | y in heap - pending && y != k {
          LessTransitive(x, k, y);
        }
        k := x;
      }
      pending := pending - {x};
    }
  }

  /** The keys that wait for `d`. */
  function WaitingFor(g: Graph, d: Key): set<Key> {
    set k | k in g && d in g[k]
  }

  /** Tasks whose dependency lists name `d`, among the lists read so far: all of the first `i`
      tasks and the first `j` entries of task `i`. */
  function Listing(tasks: seq<Task>, d: Key, i: nat, j: nat): set<Key>
    requires i <= |tasks| && (i < |tasks| ==> j <= |tasks[i].deps|)
  {
    (set m | 0 <= m < i && d in tasks[m].deps :: tasks[m].key) +
    (if i < |tasks| && d in tasks[i].deps[..j] then {tasks[i].key} else {})
  }

  predicate Collected(tasks: seq<Task>, dependents: map<Key, seq<Key>>, i: nat, j: nat)
    requires i <= |tasks| && (i < |tasks| ==> j <= |tasks[i].deps|)
  {
    dependents.Keys == KeysOf(tasks) &&
    forall d :: d in dependents ==> Distinct(dependents[d]) && Elements(dependents[d]) == Listing(tasks, d, i, j)
  }

  predicate Counted(tasks: seq<Task>, indegree: map<Key, nat>, i: nat, j: nat) {
    indegree.Keys == KeysOf(tasks) &&
    forall m :: 0 <= m < |tasks| ==>
      indegree[tasks[m].key] == if m < i then |tasks[m].deps| else if m == i then j else 0
  }

  lemma ListingNext(tasks: seq<Task>, x: Key, i: nat, j: nat)
    requires i < |tasks| && j < |tasks[i].deps|
    ensures Listing(tasks, x, i, j + 1) ==
      Listing(tasks, x, i, j) + (if x == tasks[i].deps[j] then {tasks[i].key} else {})
  {
    assert tasks[i].deps[..j + 1] == tasks[i].deps[..j] + [tasks[i].deps[j]];
  }

  lemma NotListedYet(tasks: seq<Task>, i: nat, j: nat)
    requires UniqueKeys(tasks) && i < |tasks| && j < |tasks[i].deps| && Distinct(tasks[i].deps)
    ensures tasks[i].key !in Listing(tasks, tasks[i].deps[j], i, j)
  {
    assert tasks[i].deps[j] !in tasks[i].deps[..j];
  }

  lemma CollectOne(tasks: seq<Task>, dependents: map<Key, seq<Key>>, i: nat, j: nat)
    requires UniqueKeys(tasks) && i < |tasks| && j < |tasks[i].deps| && Distinct(tasks[i].deps)
    requires Collected(tasks, dependents, i, j) && tasks[i].deps[j] in KeysOf(tasks)
    ensures tasks[i].deps[j] in dependents
    ensures var d := tasks[i].deps[j];
      Collected(tasks, dependents[d := dependents[d] + [tasks[i].key]], i, j + 1)
  {
    hide Listing, KeysOf, UniqueKeys;
    var d, key := tasks[i].deps[j], tasks[i].key;
    NotListedYet(tasks, i, j);
    ElementsSnoc(dependents[d], key);
    assert key !in dependents[d] by {
      assert key !in Elements(dependents[d]);
    }
    forall x | x in dependents
      ensures Listing(tasks, x, i, j + 1) == Listing(tasks, x, i, j) + if x == d then {key} else {}
    {
      ListingNext(tasks, x, i, j);
    }
  }

  lemma CollectNext(tasks: seq<Task>, dependents: map<Key, seq<Key>>, i: nat)
    requires i < |tasks| && Collected(tasks, dependents, i, |tasks[i].deps|)
    ensures Collected(tasks, dependents, i + 1, 0)
  {
    assert tasks[i].deps[..|tasks[i].deps|] == tasks[i].deps;
    forall d | d in dependents
      ensures Listing(tasks, d, i + 1, 0) == Listing(tasks, d, i, |tasks[i].deps|)
    {}
  }

  lemma CountOne(tasks: seq<Task>, indegree: map<Key, nat>, i: nat, j: nat)
    requires UniqueKeys(tasks) && i < |tasks| && Counted(tasks, indegree, i, j)
    ensures tasks[i].key in indegree
    ensures var key := tasks[i].key;
      Counted(tasks, indegree[key := indegree[key] + 1], i, j + 1)
  {}

  /** The inner loop over one dependency list. */
  /** An entry of a dependency list that is refused. */
  predicate Faulty(tasks: seq<Task>, i: nat, j: nat) {
    i < |tasks| && j < |tasks[i].deps| && (tasks[i].deps[j] == tasks[i].key || tasks[i].deps[j] !in KeysOf(tasks))
  }

  function WhyFaulty(tasks: seq<Task>, i: nat, j: nat): Rejection
    requires i < |tasks| && j < |tasks[i].deps|
  {
    if tasks[i].deps[j] == tasks[i].key then SelfDependency else UnknownDependency
  }

  /** The first refused entry, in reading order. */
  ghost predicate FirstFault(tasks: seq<Task>, i: nat, j: nat) {
    && Faulty(tasks, i, j)
    && (forall m: nat :: m < j ==> !Faulty(tasks, i, m))
    && Faultless(tasks, i)
  }

  ghost predicate Faultless(tasks: seq<Task>, n: nat) {
    forall k: nat, m: nat :: k < n ==> !Faulty(tasks, k, m)
  }

  lemma FirstFaultIsUnique(tasks: seq<Task>, i: nat, j: nat)
    requires FirstFault(tasks, i, j)
    ensures forall k: nat, m: nat :: FirstFault(tasks, k, m) ==> k == i && m == j
  {
    hide Faulty;
  }

  lemma FaultIsOne(tasks: seq<Task>, i: nat, j: nat)
    requires FirstFault(tasks, i, j)
    ensures i < |tasks| && j < |tasks[i].deps| && !Faultless(tasks, |tasks|)
  {
  }

  lemma NoneIsFirst(tasks: seq<Task>)
    requires Faultless(tasks, |tasks|)
    ensures forall i: nat, j: nat :: !FirstFault(tasks, i, j)
  {
  }

  lemma FaultlessNext(tasks: seq<Task>, i: nat)
    requires i < |tasks| && Faultless(tasks, i) && forall m: nat :: m < |tasks[i].deps| ==> !Faulty(tasks, i, m)
    ensures Faultless(tasks, i + 1)
  {
  }

  lemma NothingFaulty(tasks: seq<Task>)
    ensures Faultless(tasks, 0)
  {
  }

  lemma IsFirstFault(tasks: seq<Task>, i: nat, j: nat)
    requires Faulty(tasks, i, j) && (forall m: nat :: m < j ==> !Faulty(tasks, i, m)) && Faultless(tasks, i)
    ensures FirstFault(tasks, i, j) && i < |tasks| && j < |tasks[i].deps|
  {
  }

  method CountTask(tasks: seq<Task>, i: nat, indegree0: map<Key, nat>, dependents0: map<Key, seq<Key>>)
    returns (bad: Option<Rejection>, indegree: map<Key, nat>, dependents: map<Key, seq<Key>>, ghost at: nat)
    requires UniqueKeys(tasks) && i < |tasks| && Distinct(tasks[i].deps)
    requires Counted(tasks, indegree0, i, 0) && Collected(tasks, dependents0, i, 0)
    ensures bad == Some(SelfDependency) ==> HasCycle(GraphOf(tasks))
    ensures bad == Some(UnknownDependency) ==> !Known(tasks, tasks[i].deps)
    ensures bad.Some? ==> bad.value in {SelfDependency, UnknownDependency}
    ensures bad.Some? ==>
      Faulty(tasks, i, at) && (forall m: nat :: m < at ==> !Faulty(tasks, i, m)) && bad == Some(WhyFaulty(tasks, i, at))
    ensures bad.None? ==> Known(tasks, tasks[i].deps) && forall m: nat :: m < |tasks[i].deps| ==> !Faulty(tasks, i, m)
    ensures bad.None? ==> Counted(tasks, indegree, i, |tasks[i].deps|)
    ensures bad.None? ==> Collected(tasks, dependents, i, |tasks[i].deps|)
  {
    hide Counted, Collected, KeysOf;
    bad, indegree, dependents, at := None, indegree0, dependents0, 0;
    var key, deps := tasks[i].key, tasks[i].deps;
    for j := 0 to |deps|
      invariant bad.None? && forall m :: 0 <= m < j ==> deps[m] in KeysOf(tasks)
      invariant forall m: nat :: m < j ==> !Faulty(tasks, i, m)
      invariant Counted(tasks, indegree, i, j) && Collected(tasks, dependents, i, j)
    {
      var d := deps[j];
      if d == key {
        SelfCycle(tasks, i, j);
        return Some(SelfDependency), map[], map[], j;
      }
      if d !in KeysOf(tasks) {
        return Some(UnknownDependency), map[], map[], j;
      }
      CountOne(tasks, indegree, i, j);
      CollectOne(tasks, dependents, i, j);
      indegree := indegree[key := indegree[key] + 1];
      dependents := dependents[d := dependents[d] + [key]];
    }
  }

  /** The first loop: count dependencies and collect dependents.  Field validation has already made
      every dependency list free of duplicates. */
  method CountDependencies(tasks: seq<Task>)
    returns (bad: Option<Rejection>, indegree: map<Key, nat>, dependents: map<Key, seq<Key>>, ghost at: (nat, nat))
    requires UniqueKeys(tasks) && forall i :: 0 <= i < |tasks| ==> Distinct(tasks[i].deps)
    ensures bad.Some? ==> (bad.value == SelfDependency && HasCycle(GraphOf(tasks))) ||
                          (bad.value == UnknownDependency && !DependenciesExist(tasks))
    ensures bad.Some? ==> FirstFault(tasks, at.0, at.1) && bad == Some(WhyFaulty(tasks, at.0, at.1))
    ensures bad.None? ==> DependenciesExist(tasks) && Faultless(tasks, |tasks|)
    ensures bad.None? ==> Counted(tasks, indegree, |tasks|, 0) && Collected(tasks, dependents, |tasks|, 0)
  {
    hide *;
    bad, indegree, dependents, at := None, Zeros(tasks), Empties(tasks), (0, 0);
    NothingCounted(tasks);
    NothingFaulty(tasks);
    for i := 0 to |tasks|
      invariant bad.None? && AllKnown(tasks, i) && Faultless(tasks, i)
      invariant Counted(tasks, indegree, i, 0) && Collected(tasks, dependents, i, 0)
    {
      ghost var j;
      bad, indegree, dependents, j := CountTask(tasks, i, indegree, dependents);
      CountedTask(tasks, i, bad);
      at := (i, j);
      if bad.Some? {
        IsFirstFault(tasks, i, j);
        return;
      }
      FaultlessNext(tasks, i);
      CollectNext(tasks, dependents, i);
      CountNext(tasks, indegree, i);
    }
    CountedTask(tasks, |tasks|, bad);
  }

  function Zeros(tasks: seq<Task>): map<Key, nat> {
    map k | k in KeysOf(tasks) :: 0
  }

  function Empties(tasks: seq<Task>): map<Key, seq<Key>> {
    map k | k in KeysOf(tasks) :: []
  }

  predicate AllKnown(tasks: seq<Task>, i: nat)
    requires i <= |tasks|
  {
    forall m :: 0 <= m < i ==> Known(tasks, tasks[m].deps)
  }

  lemma CountedTask(tasks: seq<Task>, i: nat, bad: Option<Rejection>)
    requires i <= |tasks| && AllKnown(tasks, i)
    ensures i < |tasks| && bad.None? && Known(tasks, tasks[i].deps) ==> AllKnown(tasks, i + 1)
    ensures i < |tasks| && !Known(tasks, tasks[i].deps) ==> !DependenciesExist(tasks)
    ensures i == |tasks| ==> DependenciesExist(tasks)
  {}

  lemma CountNext(tasks: seq<Task>, indegree: map<Key, nat>, i: nat)
    requires i < |tasks| && Counted(tasks, indegree, i, |tasks[i].deps|)
    ensures Counted(tasks, indegree, i + 1, 0)
  {}

  lemma NothingCounted(tasks: seq<Task>)
    ensures Counted(tasks, Zeros(tasks), 0, 0) && Collected(tasks, Empties(tasks), 0, 0)
    ensures AllKnown(tasks, 0)
  {}

  lemma SelfCycle(tasks: seq<Task>, i: nat, j: nat)
    requires UniqueKeys(tasks) && i < |tasks| && j < |tasks[i].deps| && tasks[i].deps[j] == tasks[i].key
    ensures HasCycle(GraphOf(tasks))
  {
    var g, k := GraphOf(tasks), tasks[i].key;
    assert ByKey(tasks)[k] == tasks[i] && k in g[k];
    assert IsCycle(g, [k, k]);
  }

  /** `indegree` counts what each key still waits for. */
  predicate Waits(g: Graph, indegree: map<Key, nat>, done: set<Key>) {
    indegree.Keys == g.Keys && forall k :: k in g ==> indegree[k] == |g[k] - done|
  }

  predicate DownClosed(g: Graph, done: set<Key>) {
    forall k :: k in done ==> k in g && g[k] <= done
  }

  /** The waiting counts while the dependents in `released` have been told that `key` is done. */
  predicate PartlyReleased(g: Graph, indegree: map<Key, nat>, done: set<Key>, released: set<Key>) {
    indegree.Keys == g.Keys &&
    forall k :: k in g ==> indegree[k] == |g[k] - done| - if k in released then 1 else 0
  }

  function Freed(g: Graph, done: set<Key>, released: set<Key>): set<Key> {
    set k | k in released && k in g && g[k] <= done
  }

  lemma ReleaseOne(g: Graph, done: set<Key>, key: Key, k: Key)
    requires key !in done && k in WaitingFor(g, key)
    ensures |g[k] - done| >= 1
    ensures |g[k] - (done + {key})| == |g[k] - done| - 1
    ensures |g[k] - done| == 1 <==> g[k] <= done + {key}
  {
    assert g[k] - (done + {key}) == (g[k] - done) - {key};
    assert g[k] <= done + {key} <==> g[k] - (done + {key}) == {};
  }

  /** The state of the inner loop when the dependents in `released` have been told. */
  predicate Releasing(
      g: Graph, indegree: map<Key, nat>, ready: set<Key>, done: set<Key>, key: Key,
      ready0: set<Key>, released: set<Key>)
  {
    PartlyReleased(g, indegree, done, released) && ready == ready0 + Freed(g, done + {key}, released)
  }

  lemma ReleaseStep(
      g: Graph, indegree: map<Key, nat>, ready: set<Key>, done: set<Key>, key: Key, ready0: set<Key>,
      waiting: seq<Key>, j: nat)
    requires key !in done && Distinct(waiting) && Elements(waiting) == WaitingFor(g, key) && j < |waiting|
    requires Releasing(g, indegree, ready, done, key, ready0, Elements(waiting[..j]))
    ensures var k := waiting[j];
      k in indegree && indegree[k] >= 1 &&
      Releasing(g, indegree[k := indegree[k] - 1], if indegree[k] == 1 then ready + {k} else ready,
                done, key, ready0, Elements(waiting[..j + 1]))
  {
    var k := waiting[j];
    PrefixStep(waiting, j);
    FreshElement(waiting, j);
    ReleaseOne(g, done, key, k);
  }

  lemma ReleaseBegins(
      g: Graph, indegree: map<Key, nat>, ready: set<Key>, done: set<Key>, key: Key, waiting: seq<Key>)
    requires Waits(g, indegree, done)
    ensures Releasing(g, indegree, ready, done, key, ready, Elements(waiting[..0]))
  {}

  lemma ReleaseEnds(
      g: Graph, indegree: map<Key, nat>, ready: set<Key>, done: set<Key>, key: Key, ready0: set<Key>, waiting: seq<Key>)
    requires DownClosed(g, done) && key in Ready(g, done) && ready0 == Ready(g, done) - {key}
    requires Elements(waiting) == WaitingFor(g, key)
    requires Releasing(g, indegree, ready, done, key, ready0, Elements(waiting[..|waiting|]))
    ensures Waits(g, indegree, done + {key}) && ready == Ready(g, done + {key})
  {
    assert waiting[..|waiting|] == waiting;
    ReadyAfter(g, done, key);
    forall k | k in g
      ensures indegree[k] == |g[k] - (done + {key})|
    {
      if k in WaitingFor(g, key) {
        ReleaseOne(g, done, key, k);
      } else {
        assert g[k] - (done + {key}) == g[k] - done;
      }
    }
  }

  lemma ReadyAfter(g: Graph, done: set<Key>, key: Key)
    requires DownClosed(g, done) && key in Ready(g, done)
    ensures key !in done
    ensures Ready(g, done + {key}) == Ready(g, done) - {key} + Freed(g, done + {key}, WaitingFor(g, key))
    ensures DownClosed(g, done + {key})
  {}

  /** The inner loop: tell every dependent of `key`; the order in which this happens is immaterial. */
  method Release(
      g: Graph, key: Key, waiting: seq<Key>, ghost done: set<Key>, indegree0: map<Key, nat>, ready0: set<Key>)
    returns (indegree: map<Key, nat>, ready: set<Key>)
    requires DownClosed(g, done) && key !in done && key in Ready(g, done) && ready0 == Ready(g, done) - {key}
    requires Waits(g, indegree0, done)
    requires Distinct(waiting) && Elements(waiting) == WaitingFor(g, key)
    ensures Waits(g, indegree, done + {key}) && ready == Ready(g, done + {key})
  {
    hide *;
    indegree, ready := indegree0, ready0;
    ReleaseBegins(g, indegree, ready, done, key, waiting);
    for j := 0 to |waiting|
      invariant Releasing(g, indegree, ready, done, key, ready0, Elements(waiting[..j]))
    {
      var k := waiting[j];
      ReleaseStep(g, indegree, ready, done, key, ready0, waiting, j);
      indegree := indegree[k := indegree[k] - 1];
      if indegree[k] == 0 {
        ready := ready + {k};
      }
    }
    ReleaseEnds(g, indegree, ready, done, key, ready0, waiting);
  }

  lemma FreshElement<T>(s: seq<T>, j: nat)
    requires Distinct(s) && j < |s|
    ensures s[j] in Elements(s) && s[j] !in Elements(s[..j])
  {}

  /** The state of the main loop when `ordered` has been produced. */
  predicate Ordering(g: Graph, indegree: map<Key, nat>, ready: set<Key>, ordered: seq<Key>) {
    && Distinct(ordered) && Elements(ordered) <= g.Keys && Greedy(g, ordered)
    && DownClosed(g, Elements(ordered)) && Waits(g, indegree, Elements(ordered))
    && ready == Ready(g, Elements(ordered))
  }

  predicate DependentsOf(g: Graph, dependents: map<Key, seq<Key>>) {
    dependents.Keys == g.Keys &&
    forall d :: d in dependents ==> Distinct(dependents[d]) && Elements(dependents[d]) == WaitingFor(g, d)
  }

  /** The main loop.  It stops with every key in order, or stuck on a cycle. */
  method Order(g: Graph, indegree0: map<Key, nat>, dependents: map<Key, seq<Key>>) returns (ordered: seq<Key>)
    requires Closed(g) && Waits(g, indegree0, {}) && DependentsOf(g, dependents)
    ensures Distinct(ordered) && Elements(ordered) <= g.Keys && Greedy(g, ordered)
    ensures Elements(ordered) == g.Keys || HasCycle(g)
  {
    hide *;
    ordered := [];
    var indegree := indegree0;
    var ready := set k | k in indegree && indegree[k] == 0;
    OrderBegins(g, indegree);
    while ready != {}
      invariant Ordering(g, indegree, ready, ordered)
      decreases g.Keys - Elements(ordered)
    {
      var key := PopLeast(ready);
      OrderStep(g, indegree, ready, ordered, key, dependents);
      indegree, ready := Release(g, key, dependents[key], Elements(ordered), indegree, ready - {key});
      ordered := ordered + [key];
    }
    OrderEnds(g, indegree, ordered);
  }

  lemma OrderStep(
      g: Graph, indegree: map<Key, nat>, ready: set<Key>, ordered: seq<Key>, key: Key, dependents: map<Key, seq<Key>>)
    requires Ordering(g, indegree, ready, ordered) && IsLeast(ready, key) && DependentsOf(g, dependents)
    ensures var done := Elements(ordered);
      && key in ready && key in dependents && key !in done && DownClosed(g, done)
      && ready == Ready(g, done) && Waits(g, indegree, done)
      && Distinct(dependents[key]) && Elements(dependents[key]) == WaitingFor(g, key)
      && key in g && Elements(ordered + [key]) == done + {key}
      && forall indegree', ready' :: Waits(g, indegree', done + {key}) && ready' == Ready(g, done + {key}) ==>
           Ordering(g, indegree', ready', ordered + [key])
  {
    ElementsSnoc(ordered, key);
    GreedySnoc(g, ordered, key);
    ReadyAfter(g, Elements(ordered), key);
  }

  lemma OrderEnds(g: Graph, indegree: map<Key, nat>, ordered: seq<Key>)
    requires Closed(g) && Ordering(g, indegree, {}, ordered)
    ensures Distinct(ordered) && Elements(ordered) <= g.Keys && Greedy(g, ordered)
    ensures Elements(ordered) == g.Keys || HasCycle(g)
  {
    if Elements(ordered) != g.Keys {
      StuckHasCycle(g, Elements(ordered));
    }
  }

  lemma OrderBegins(g: Graph, indegree: map<Key, nat>)
    requires Waits(g, indegree, {})
    ensures Ordering(g, indegree, set k | k in indegree && indegree[k] == 0, [])
  {
    var none: seq<Key> := [];
    assert Elements(none) == {} && Distinct(none) && Greedy(g, none);
    ZeroIsReady(g, indegree);
  }

  lemma NothingOut(deps: set<Key>)
    ensures deps - {} == deps && (|deps| == 0 <==> deps <= {})
  {
  }

  lemma ZeroIsReady(g: Graph, indegree: map<Key, nat>)
    requires Waits(g, indegree, {})
    ensures (set k | k in indegree && indegree[k] == 0) == Ready(g, {})
  {
    forall k | k in g
      ensures indegree[k] == 0 <==> g[k] <= {}
    {
      NothingOut(g[k]);
    }
  }

  lemma GreedySnoc(g: Graph, order: seq<Key>, k: Key)
    requires Greedy(g, order) && Distinct(order) && IsLeast(Ready(g, Elements(order)), k)
    ensures Greedy(g, order + [k]) && Distinct(order + [k])
  {
    var longer := order + [k];
    forall i | 0 <= i < |longer|
      ensures IsLeast(Ready(g, Elements(longer[..i])), longer[i])
    {
      assert longer[..i] == order[..i];
      assert order[..|order|] == order;
    }
    assert forall i :: 0 <= i < |order| ==> order[i] in Elements(order);
  }

  // ---------------------------------------------------------------- the validator

  ghost predicate Valid(tasks: seq<Task>) {
    UniqueKeys(tasks) && DependenciesExist(tasks) && !HasCycle(GraphOf(tasks))
  }

  /** `out` lists the given tasks in the least topological order of their keys. */
  ghost predicate CanonicalOrder(tasks: seq<Task>, out: seq<Task>) {
    && UniqueKeys(tasks) && UniqueKeys(out)
    && (forall t :: t in out <==> t in tasks)
    && LeastTopological(GraphOf(tasks), KeySeq(out))
  }

  function KeySeq(tasks: seq<Task>): (r: seq<Key>)
    ensures |r| == |tasks| && forall i :: 0 <= i < |tasks| ==> r[i] == tasks[i].key
  {
    seq(|tasks|, i requires 0 <= i < |tasks| => tasks[i].key)
  }

  /** Main result: the validator accepts exactly the plans with unique keys, known dependencies and
      no cycle, and returns the tasks in the lexicographically least topological order. */
  method ValidateDependencyGraph(tasks: seq<Task>) returns (r: Validation)
    requires forall i :: 0 <= i < |tasks| ==> Distinct(tasks[i].deps)
    ensures r.Accepted? <==> Valid(tasks)
    ensures r.Accepted? ==> CanonicalOrder(tasks, r.tasks) && |r.tasks| == |tasks|
    ensures r == Rejected(DuplicateKey) <==> !UniqueKeys(tasks)
    ensures r == Rejected(UnknownDependency) ==> !DependenciesExist(tasks)
    ensures r == Rejected(Cyclic) ==> DependenciesExist(tasks)
    ensures UniqueKeys(tasks) ==>
      forall i: nat, j: nat :: FirstFault(tasks, i, j) ==> r == Rejected(WhyFaulty(tasks, i, j))
    ensures UniqueKeys(tasks) && Faultless(tasks, |tasks|) ==> r.Accepted? || r == Rejected(Cyclic)
  {
    if !UniqueKeys(tasks) {
      return Rejected(DuplicateKey);
    }
    hide *;
    var byKey, g := ByKey(tasks), GraphOf(tasks);
    var bad, indegree, dependents, at := CountDependencies(tasks);
    if bad.Some? {
      FirstFaultIsUnique(tasks, at.0, at.1);
      FaultIsOne(tasks, at.0, at.1);
      Refuses(tasks, bad.value);
      return Rejected(bad.value);
    }
    NoneIsFirst(tasks);
    CountedWaits(tasks, indegree, dependents);
    var ordered := Order(g, indegree, dependents);
    if |ordered| != |byKey| {
      ShortOrder(tasks, ordered);
      return Rejected(Cyclic);
    }
    FullOrder(tasks, ordered);
    var out := Tasks(byKey, ordered);
    OutIsCanonical(tasks, ordered, out);
    return Accepted(out);
  }

  function Tasks(byKey: map<Key, Task>, ordered: seq<Key>): (r: seq<Task>)
    requires Elements(ordered) <= byKey.Keys
    ensures |r| == |ordered| && forall i :: 0 <= i < |r| ==> ordered[i] in byKey && r[i] == byKey[ordered[i]]
  {
    if ordered == [] then []
    else
      var n := |ordered| - 1;
      assert ordered[n] in Elements(ordered) && Elements(ordered[..n]) <= Elements(ordered);
      Tasks(byKey, ordered[..n]) + [byKey[ordered[n]]]
  }

  lemma Refuses(tasks: seq<Task>, why: Rejection)
    requires UniqueKeys(tasks)
    requires
      || (why == SelfDependency && HasCycle(GraphOf(tasks)))
      || (why == UnknownDependency && !DependenciesExist(tasks))
    ensures !Valid(tasks)
  {}

  lemma ShortOrder(tasks: seq<Task>, ordered: seq<Key>)
    requires UniqueKeys(tasks) && Distinct(ordered) && |ordered| != |ByKey(tasks)|
    requires Elements(ordered) == GraphOf(tasks).Keys || HasCycle(GraphOf(tasks))
    ensures !Valid(tasks)
  {
    DistinctSize(ordered);
    assert |ByKey(tasks)| == |ByKey(tasks).Keys|;
  }

  lemma CountedWaits(tasks: seq<Task>, indegree: map<Key, nat>, dependents: map<Key, seq<Key>>)
    requires UniqueKeys(tasks) && DependenciesExist(tasks)
    requires forall i :: 0 <= i < |tasks| ==> Distinct(tasks[i].deps)
    requires Counted(tasks, indegree, |tasks|, 0) && Collected(tasks, dependents, |tasks|, 0)
    ensures var g := GraphOf(tasks);
      Closed(g) && Waits(g, indegree, {}) && DependentsOf(g, dependents)
  {
    var g := GraphOf(tasks);
    forall k | k in g {
      CountedWaitsAt(tasks, indegree, k);
    }
    forall d | d in dependents {
      ListingIsWaiting(tasks, d);
    }
  }

  lemma CountedWaitsAt(tasks: seq<Task>, indegree: map<Key, nat>, k: Key)
    requires UniqueKeys(tasks) && DependenciesExist(tasks) && k in KeysOf(tasks)
    requires forall i :: 0 <= i < |tasks| ==> Distinct(tasks[i].deps)
    requires Counted(tasks, indegree, |tasks|, 0)
    ensures var g := GraphOf(tasks); indegree[k] == |g[k] - {}| && g[k] <= g.Keys
  {
    var g := GraphOf(tasks);
    var m := TaskOf(tasks, k);
    DistinctSize(tasks[m].deps);
    assert g[k] - {} == g[k] == Elements(tasks[m].deps);
    assert Known(tasks, tasks[m].deps);
  }

  lemma TaskOf(tasks: seq<Task>, k: Key) returns (m: nat)
    requires UniqueKeys(tasks) && k in KeysOf(tasks)
    ensures m < |tasks| && tasks[m].key == k && ByKey(tasks)[k] == tasks[m]
    ensures GraphOf(tasks)[k] == Elements(tasks[m].deps)
  {
    m :| 0 <= m < |tasks| && tasks[m].key == k;
  }

  lemma ListingIsWaiting(tasks: seq<Task>, d: Key)
    requires UniqueKeys(tasks)
    ensures Listing(tasks, d, |tasks|, 0) == WaitingFor(GraphOf(tasks), d)
  {
    forall k | k in KeysOf(tasks)
      ensures k in Listing(tasks, d, |tasks|, 0) <==> k in WaitingFor(GraphOf(tasks), d)
    {
      var m := TaskOf(tasks, k);
    }
  }

  lemma FullOrder(tasks: seq<Task>, ordered: seq<Key>)
    requires UniqueKeys(tasks) && Distinct(ordered) && Elements(ordered) <= KeysOf(tasks)
    requires |ordered| == |ByKey(tasks)| && Greedy(GraphOf(tasks), ordered)
    ensures Elements(ordered) == KeysOf(tasks)
    ensures LeastTopological(GraphOf(tasks), ordered) && !HasCycle(GraphOf(tasks))
  {
    DistinctSize(ordered);
    assert |ByKey(tasks)| == |ByKey(tasks).Keys|;
    SameSize(Elements(ordered), KeysOf(tasks));
    GreedyIsLeast(GraphOf(tasks), ordered);
    TopologicalHasNoCycle(GraphOf(tasks), ordered);
  }

  lemma {:induction false} SameSize<T>(a: set<T>, b: set<T>)
    requires a <= b && |a| == |b|
    ensures a == b
  {
    if a != b {
      var x :| x in b && x !in a;
      SubsetSize(a, b - {x});
    }
  }

  lemma OutIsCanonical(tasks: seq<Task>, ordered: seq<Key>, out: seq<Task>)
    requires UniqueKeys(tasks) && Elements(ordered) == KeysOf(tasks) && Distinct(ordered)
    requires LeastTopological(GraphOf(tasks), ordered) && |out| == |ordered|
    requires forall i :: 0 <= i < |ordered| ==> ordered[i] in ByKey(tasks) && out[i] == ByKey(tasks)[ordered[i]]
    ensures CanonicalOrder(tasks, out) && |out| == |tasks|
  {
    hide LeastTopological, GraphOf, ByKey, KeysOf, Elements;
    OutListsTasks(tasks, ordered, out);
    assert KeySeq(out) == ordered;
    DistinctSize(ordered);
    DistinctSize(KeySeq(tasks));
    KeySeqKeys(tasks);
  }

  /** The tasks of the ordered keys are the given tasks. */
  lemma OutListsTasks(tasks: seq<Task>, ordered: seq<Key>, out: seq<Task>)
    requires UniqueKeys(tasks) && Elements(ordered) == KeysOf(tasks) && |out| == |ordered|
    requires forall i :: 0 <= i < |ordered| ==> ordered[i] in ByKey(tasks) && out[i] == ByKey(tasks)[ordered[i]]
    ensures forall i :: 0 <= i < |out| ==> out[i].key == ordered[i]
    ensures forall t :: t in out <==> t in tasks
  {
    forall i | 0 <= i < |out|
      ensures out[i].key == ordered[i] && out[i] in tasks
    {
      var m := TaskOf(tasks, ordered[i]);
    }
    forall t | t in tasks
      ensures t in out
    {
      TaskIsListed(tasks, ordered, out, t);
    }
  }

  lemma TaskIsListed(tasks: seq<Task>, ordered: seq<Key>, out: seq<Task>, t: Task)
    requires UniqueKeys(tasks) && Elements(ordered) == KeysOf(tasks) && |out| == |ordered| && t in tasks
    requires forall i :: 0 <= i < |ordered| ==> ordered[i] in ByKey(tasks) && out[i] == ByKey(tasks)[ordered[i]]
    ensures t in out
  {
    var m :| 0 <= m < |tasks| && tasks[m] == t;
    assert t.key in KeysOf(tasks) && t.key in Elements(ordered);
    var i :| 0 <= i < |ordered| && ordered[i] == t.key;
    assert out[i] == t;
  }

  lemma KeySeqKeys(tasks: seq<Task>)
    ensures Elements(KeySeq(tasks)) == KeysOf(tasks)
  {
    forall k | k in KeysOf(tasks)
      ensures k in KeySeq(tasks)
    {
      var m :| 0 <= m < |tasks| && tasks[m].key == k;
      assert KeySeq(tasks)[m] == k;
    }
  }

  /** The accepted order depends only on the set of tasks: reordering the input changes nothing. */
  lemma InputOrderIrrelevant(tasks: seq<Task>, shuffled: seq<Task>, out: seq<Task>, out': seq<Task>)
    requires forall t :: t in tasks <==> t in shuffled
    requires CanonicalOrder(tasks, out) && CanonicalOrder(shuffled, out')
    ensures out == out'
  {
    SameGraph(tasks, shuffled);
    LeastUnique(GraphOf(tasks), KeySeq(out), KeySeq(out'));
    forall i | 0 <= i < |out|
      ensures out[i] == out'[i]
    {
      assert out[i].key == KeySeq(out)[i] == KeySeq(out')[i] == out'[i].key;
      assert out[i] in tasks && out'[i] in tasks;
      var m :| 0 <= m < |tasks| && tasks[m] == out[i];
      var n :| 0 <= n < |tasks| && tasks[n] == out'[i];
    }
  }

  lemma SameGraph(tasks: seq<Task>, shuffled: seq<Task>)
    requires UniqueKeys(tasks) && UniqueKeys(shuffled) && forall t :: t in tasks <==> t in shuffled
    ensures GraphOf(tasks) == GraphOf(shuffled)
  {
    forall k | k in KeysOf(tasks)
      ensures k in KeysOf(shuffled) && ByKey(tasks)[k] == ByKey(shuffled)[k]
    {
      var m :| 0 <= m < |tasks| && tasks[m].key == k;
      assert tasks[m] in shuffled;
      var n :| 0 <= n < |shuffled| && shuffled[n] == tasks[m];
    }
    forall k | k in KeysOf(shuffled)
      ensures k in KeysOf(tasks)
    {
      var n :| 0 <= n < |shuffled| && shuffled[n].key == k;
      assert shuffled[n] in tasks;
      var m :| 0 <= m < |tasks| && tasks[m] == shuffled[n];
    }
  }

  /** Validating an accepted plan again accepts it unchanged. */
  lemma Idempotent(tasks: seq<Task>, out: seq<Task>)
    requires Valid(tasks) && CanonicalOrder(tasks, out)
    ensures Valid(out) && CanonicalOrder(out, out)
  {
    SameGraph(tasks, out);
    assert KeysOf(out) == GraphOf(out).Keys == GraphOf(tasks).Keys == KeysOf(tasks);
    forall i | 0 <= i < |out|
      ensures Known(out, out[i].deps)
    {
      assert out[i] in tasks;
      var m :| 0 <= m < |tasks| && tasks[m] == out[i];
      assert Known(tasks, tasks[m].deps);
    }
  }
}
