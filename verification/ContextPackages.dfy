/** Greedy assembly and disclosure filtering of context packages (memories/context_packages.py).
    Only sizes, counts and provenance counts matter here; texts are represented by their sizes. */
module ContextPackages {
  import opened PackageSize
  import opened Options

  /** The JSON text of an object has at least its two braces. */
  type ObjectBytes = n: nat | n >= 2 witness 2

  datatype Group = Facts | Decisions | Preferences | Constraints | Events | Notes | Disputed

  datatype Scope = Scope(project: Option<nat>, task: Option<nat>, workflowRun: Option<nat>)

  /** `body` is the item's JSON without the provenance entries and without the digits of the
      omitted count; `provenance` are the sizes of its references. */
  datatype MemoryResult = MemoryResult(
    workspace: nat, scope: Scope, kind: Group, disputed: bool, remoteAllowed: bool,
    body: ObjectBytes, provenance: seq<ObjectBytes>)

  datatype Item = Item(result: MemoryResult, retained: nat)

  datatype Bounds = Bounds(maxItems: nat, maxBytes: nat, maxPerItem: nat, maxReferences: nat)

  /** `envelope` is everything in the JSON that assembly and filtering leave alone. */
  datatype Package = Package(
    envelope: nat, items: Groups, included: nat, omitted: nat,
    provenanceOmitted: nat, policyOmitted: nat, serialized: nat, bounds: Bounds)

  datatype Assembly = Assembled(package: Package) | BadScope | CannotEncode

  /** One list of items per group. */
  datatype Groups = Groups(
    facts: seq<Item>, decisions: seq<Item>, preferences: seq<Item>, constraints: seq<Item>,
    events: seq<Item>, notes: seq<Item>, disputed: seq<Item>)
  {
    function Get(g: Group): seq<Item> {
      match g
      case Facts => facts
      case Decisions => decisions
      case Preferences => preferences
      case Constraints => constraints
      case Events => events
      case Notes => notes
      case Disputed => disputed
    }

    function Set(g: Group, items: seq<Item>): Groups {
      match g
      case Facts => this.(facts := items)
      case Decisions => this.(decisions := items)
      case Preferences => this.(preferences := items)
      case Constraints => this.(constraints := items)
      case Events => this.(events := items)
      case Notes => this.(notes := items)
      case Disputed => this.(disputed := items)
    }

    function Bytes(): nat {
      ArrayBytes(facts) + ArrayBytes(decisions) + ArrayBytes(preferences) + ArrayBytes(constraints) +
      ArrayBytes(events) + ArrayBytes(notes) + ArrayBytes(disputed)
    }

    function Count(): nat {
      |facts| + |decisions| + |preferences| + |constraints| + |events| + |notes| + |disputed|
    }
  }

  const GROUPS: seq<Group> := [Facts, Decisions, Preferences, Constraints, Events, Notes, Disputed]

  function GroupOf(r: MemoryResult): Group {
    if r.disputed then Disputed else r.kind
  }

  // ---------------------------------------------------------------- sizes

  /** The contents of a JSON array: its elements and the commas between them. */
  function ListBytes(sizes: seq<nat>): nat {
    if sizes == [] then 0
    else
      var n := |sizes| - 1;
      ListBytes(sizes[..n]) + (if n == 0 then 0 else 1) + sizes[n]
  }

  function ItemOmitted(i: Item): nat {
    if i.retained <= |i.result.provenance| then |i.result.provenance| - i.retained else 0
  }

  function ItemBytes(i: Item): (n: nat)
    ensures n >= 2
  {
    i.result.body + ListBytes(i.result.provenance[..if i.retained <= |i.result.provenance| then i.retained else 0]) +
    Digits(ItemOmitted(i))
  }

  function Sizes(items: seq<Item>): (r: seq<nat>)
    ensures |r| == |items| && forall k :: 0 <= k < |items| ==> r[k] == ItemBytes(items[k])
  {
    seq(|items|, k requires 0 <= k < |items| => ItemBytes(items[k]))
  }

  /** The contents of one group's array. */
  function ArrayBytes(items: seq<Item>): nat {
    ListBytes(Sizes(items))
  }

  /** The JSON without the digits of `serialized_bytes`. */
  function Base(p: Package): nat {
    p.envelope + p.items.Bytes() + Digits(p.included) + Digits(p.omitted) +
    Digits(p.provenanceOmitted) + Digits(p.policyOmitted)
  }

  // ---------------------------------------------------------------- greedy assembly

  /** `_item`: keep a prefix of the references, within both limits. */
  function MakeItem(r: MemoryResult, remaining: nat, b: Bounds): Item {
    var limit := if b.maxPerItem <= remaining then b.maxPerItem else remaining;
    Item(r, if limit <= |r.provenance| then limit else |r.provenance|)
  }

  function Retained(kept: seq<Item>): nat {
    if kept == [] then 0 else Retained(kept[..|kept| - 1]) + kept[|kept| - 1].retained
  }

  function Omitted(kept: seq<Item>): nat {
    if kept == [] then 0 else Omitted(kept[..|kept| - 1]) + ItemOmitted(kept[|kept| - 1])
  }

  function InGroup(kept: seq<Item>, g: Group): seq<Item> {
    if kept == [] then []
    else
      var last := kept[|kept| - 1];
      InGroup(kept[..|kept| - 1], g) + if GroupOf(last.result) == g then [last] else []
  }

  function Partition(kept: seq<Item>): Groups {
    Groups(InGroup(kept, Facts), InGroup(kept, Decisions), InGroup(kept, Preferences), InGroup(kept, Constraints),
           InGroup(kept, Events), InGroup(kept, Notes), InGroup(kept, Disputed))
  }

  lemma {:induction false} PartitionCount(kept: seq<Item>)
    ensures Partition(kept).Count() == |kept|
  {
    if kept != [] {
      PartitionCount(kept[..|kept| - 1]);
    }
  }

  /** The package that holds the kept items, before its size is filled in. */
  function PackageOf(kept: seq<Item>, envelope: nat, total: nat, b: Bounds): Package {
    Package(envelope, Partition(kept), |kept|, if |kept| <= total then total - |kept| else 0, Omitted(kept), 0, 0, b)
  }

  function SizeOf(kept: seq<Item>, envelope: nat, total: nat, b: Bounds): nat {
    Size(Base(PackageOf(kept, envelope, total, b)))
  }

  /** Whether the next result is kept, and the kept items after it. */
  function Consider(kept: seq<Item>, r: MemoryResult, envelope: nat, total: nat, b: Bounds): seq<Item> {
    if |kept| >= b.maxItems then kept
    else
      var remaining := if Retained(kept) <= b.maxReferences then b.maxReferences - Retained(kept) else 0;
      var longer := kept + [MakeItem(r, remaining, b)];
      if SizeOf(longer, envelope, total, b) > b.maxBytes then kept else longer
  }

  /** The items kept from the first results. */
  function Greedy(results: seq<MemoryResult>, envelope: nat, total: nat, b: Bounds): seq<Item> {
    if results == [] then []
    else
      var n := |results| - 1;
      Consider(Greedy(results[..n], envelope, total, b), results[n], envelope, total, b)
  }

  /** What every greedy selection satisfies. */
  predicate WithinBounds(kept: seq<Item>, seen: nat, envelope: nat, total: nat, b: Bounds) {
    && |kept| <= b.maxItems && |kept| <= seen && Retained(kept) <= b.maxReferences
    && (forall k :: 0 <= k < |kept| ==>
      kept[k].retained <= b.maxPerItem && kept[k].retained <= |kept[k].result.provenance|)
    && (kept != [] ==> SizeOf(kept, envelope, total, b) <= b.maxBytes)
  }

  lemma ConsiderWithinBounds(kept: seq<Item>, r: MemoryResult, seen: nat, envelope: nat, total: nat, b: Bounds)
    requires WithinBounds(kept, seen, envelope, total, b)
    ensures WithinBounds(Consider(kept, r, envelope, total, b), seen + 1, envelope, total, b)
  {
    hide SizeOf;
    var after := Consider(kept, r, envelope, total, b);
    if after != kept {
      assert after[..|after| - 1] == kept;
    }
  }

  lemma {:induction false} GreedyWithinBounds(results: seq<MemoryResult>, envelope: nat, total: nat, b: Bounds)
    ensures WithinBounds(Greedy(results, envelope, total, b), |results|, envelope, total, b)
  {
    hide Consider, SizeOf;
    if results != [] {
      var n := |results| - 1;
      GreedyWithinBounds(results[..n], envelope, total, b);
      ConsiderWithinBounds(Greedy(results[..n], envelope, total, b), results[n], n, envelope, total, b);
    }
  }

  /** The kept items come from the results, in retrieval order. */
  ghost predicate Selects(kept: seq<Item>, results: seq<MemoryResult>, at: seq<nat>) {
    && |at| == |kept|
    && (forall k :: 0 <= k < |at| ==> at[k] < |results| && kept[k].result == results[at[k]])
    && (forall j, k :: 0 <= j < k < |at| ==> at[j] < at[k])
  }

  lemma ConsiderAddsOne(kept: seq<Item>, r: MemoryResult, envelope: nat, total: nat, b: Bounds)
    ensures var after := Consider(kept, r, envelope, total, b);
      after == kept || (|after| == |kept| + 1 && after[..|kept|] == kept && after[|kept|].result == r)
  {
    hide SizeOf;
  }

  lemma {:induction false} GreedySelects(results: seq<MemoryResult>, envelope: nat, total: nat, b: Bounds)
    returns (at: seq<nat>)
    ensures Selects(Greedy(results, envelope, total, b), results, at)
  {
    hide SizeOf, Consider, Retained;
    if results == [] {
      at := [];
    } else {
      var n := |results| - 1;
      at := GreedySelects(results[..n], envelope, total, b);
      var kept := Greedy(results[..n], envelope, total, b);
      ConsiderAddsOne(kept, results[n], envelope, total, b);
      if Greedy(results, envelope, total, b) != kept {
        at := at + [n];
      }
    }
  }

  predicate ScopeMatches(r: MemoryResult, workspace: nat, scope: Scope) {
    && r.workspace == workspace
    && (scope.project.Some? ==> r.scope.project == scope.project)
    && (scope.task.Some? ==> r.scope.task == scope.task)
    && (scope.workflowRun.Some? ==> r.scope.workflowRun == scope.workflowRun)
  }

  /** Main result: assembly keeps the greedy selection and reports its size; the overflow error is
      raised exactly when nothing was kept and the empty package is already too large. */
  method Assemble(results: seq<MemoryResult>, workspace: nat, scope: Scope, envelope: nat, b: Bounds)
    returns (r: Assembly)
    ensures r == BadScope <==> exists i :: 0 <= i < |results| && !ScopeMatches(results[i], workspace, scope)
    ensures r.Assembled? ==> r.package == Result(Greedy(results, envelope, |results|, b), envelope, |results|, b)
    ensures r != BadScope ==> (r == CannotEncode <==>
      Greedy(results, envelope, |results|, b) == [] && SizeOf([], envelope, |results|, b) > b.maxBytes)
  {
    for i := 0 to |results|
      invariant forall k :: 0 <= k < i ==> ScopeMatches(results[k], workspace, scope)
    {
      if !ScopeMatches(results[i], workspace, scope) {
        return BadScope;
      }
    }
    r := Select(results, envelope, b);
  }

  /** The loop over the retrieval results, and the final size check. */
  method Select(results: seq<MemoryResult>, envelope: nat, b: Bounds) returns (r: Assembly)
    ensures r != BadScope
    ensures r.Assembled? ==> r.package == Result(Greedy(results, envelope, |results|, b), envelope, |results|, b)
    ensures r == CannotEncode <==>
      Greedy(results, envelope, |results|, b) == [] && SizeOf([], envelope, |results|, b) > b.maxBytes
  {
    hide Size, Base, Consider, Retained, Omitted, Partition, Greedy, WithinBounds;
    var total := |results|;
    var groups := Groups([], [], [], [], [], [], []);
    var included, retained, omitted := 0, 0, 0;
    ghost var kept: seq<Item> := [];
    NothingKept(results, envelope, b);
    for i := 0 to |results|
      invariant kept == Greedy(results[..i], envelope, total, b)
      invariant WithinBounds(kept, i, envelope, total, b)
      invariant groups == Partition(kept) && included == |kept|
      invariant retained == Retained(kept) && omitted == Omitted(kept)
    {
      KeptFits(kept, i, envelope, total, b);
      GreedyStep(results, i, envelope, total, b);
      if included < b.maxItems {
        var item := MakeItem(results[i], b.maxReferences - retained, b);
        var group := GroupOf(results[i]);
        PartitionSnoc(kept, item);
        var longer := groups.Set(group, groups.Get(group) + [item]);
        var candidate :=
          Package(envelope, longer, included + 1, total - (included + 1), omitted + ItemOmitted(item), 0, 0, b);
        var sized := SerializedBytes(Base(candidate));
        if sized.size <= b.maxBytes {
          groups, included := longer, included + 1;
          retained, omitted := retained + item.retained, omitted + ItemOmitted(item);
          kept := kept + [item];
        }
      }
    }
    assert results[..|results|] == results;
    KeptFits(kept, |results|, envelope, total, b);
    var package := Package(envelope, groups, included, total - included, omitted, 0, 0, b);
    var sized := SerializedBytes(Base(package));
    if sized.size > b.maxBytes {
      return CannotEncode;
    }
    return Assembled(package.(serialized := sized.size));
  }

  function Result(kept: seq<Item>, envelope: nat, total: nat, b: Bounds): Package {
    PackageOf(kept, envelope, total, b).(serialized := SizeOf(kept, envelope, total, b))
  }

  lemma NothingKept(results: seq<MemoryResult>, envelope: nat, b: Bounds)
    ensures Greedy(results[..0], envelope, |results|, b) == [] && Retained([]) == 0 && Omitted([]) == 0
    ensures Partition([]) == Groups([], [], [], [], [], [], [])
    ensures WithinBounds([], 0, envelope, |results|, b)
  {}

  lemma KeptFits(kept: seq<Item>, seen: nat, envelope: nat, total: nat, b: Bounds)
    requires WithinBounds(kept, seen, envelope, total, b)
    ensures |kept| <= b.maxItems && |kept| <= seen && Retained(kept) <= b.maxReferences
    ensures kept != [] ==> SizeOf(kept, envelope, total, b) <= b.maxBytes
  {}

  lemma GreedyStep(results: seq<MemoryResult>, i: nat, envelope: nat, total: nat, b: Bounds)
    requires i < |results|
    ensures var kept := Greedy(results[..i], envelope, total, b);
      Greedy(results[..i + 1], envelope, total, b) ==
        if |kept| >= b.maxItems then kept
        else
          var remaining := if Retained(kept) <= b.maxReferences then b.maxReferences - Retained(kept) else 0;
          var longer := kept + [MakeItem(results[i], remaining, b)];
          if SizeOf(longer, envelope, total, b) > b.maxBytes then kept else longer
    ensures WithinBounds(Greedy(results[..i + 1], envelope, total, b), i + 1, envelope, total, b)
  {
    hide SizeOf, WithinBounds, Retained;
    assert results[..i + 1][..i] == results[..i];
    GreedyWithinBounds(results[..i + 1], envelope, total, b);
  }

  lemma PartitionSnoc(kept: seq<Item>, item: Item)
    ensures var g := GroupOf(item.result);
      Partition(kept + [item]) == Partition(kept).Set(g, Partition(kept).Get(g) + [item])
    ensures Retained(kept + [item]) == Retained(kept) + item.retained
    ensures Omitted(kept + [item]) == Omitted(kept) + ItemOmitted(item)
  {
    assert (kept + [item])[..|kept|] == kept;
    forall g
      ensures InGroup(kept + [item], g) == InGroup(kept, g) + if GroupOf(item.result) == g then [item] else []
    {
      InGroupSnoc(kept, item, g);
    }
    hide InGroup, GroupOf;
  }

  lemma InGroupSnoc(kept: seq<Item>, item: Item, g: Group)
    ensures InGroup(kept + [item], g) == InGroup(kept, g) + if GroupOf(item.result) == g then [item] else []
  {
    assert (kept + [item])[..|kept|] == kept;
  }

  /** An assembled package is well formed, accounts for every result, and its omitted references are
      those of the kept items. */
  lemma AssembledIsWellFormed(results: seq<MemoryResult>, envelope: nat, b: Bounds)
    requires var kept := Greedy(results, envelope, |results|, b);
      kept != [] || SizeOf([], envelope, |results|, b) <= b.maxBytes
    ensures var p := Result(Greedy(results, envelope, |results|, b), envelope, |results|, b);
      && WellFormed(p) && p.included + p.omitted == |results|
      && p.provenanceOmitted == Omitted(Greedy(results, envelope, |results|, b)) && p.included <= b.maxItems
      && p.policyOmitted == 0 && p.envelope == envelope && p.bounds == b
  {
    var kept := Greedy(results, envelope, |results|, b);
    GreedyWithinBounds(results, envelope, |results|, b);
    PartitionCount(kept);
    var q := PackageOf(kept, envelope, |results|, b);
    assert Base(q.(serialized := SizeOf(kept, envelope, |results|, b))) == Base(q);
  }

  // ---------------------------------------------------------------- filtering

  /** The counters add up, the stated size is the true one and within the bound. */
  predicate WellFormed(p: Package) {
    p.included == p.items.Count() && p.serialized == Size(Base(p)) && p.serialized <= p.bounds.maxBytes
  }

  predicate Eligible(i: Item, local: bool) {
    local || i.result.remoteAllowed
  }

  function Disclosed(items: seq<Item>, local: bool): (r: seq<Item>)
    ensures |r| <= |items|
  {
    if items == [] then []
    else
      var last := items[|items| - 1];
      Disclosed(items[..|items| - 1], local) + if Eligible(last, local) then [last] else []
  }

  /** Each removed element frees at least its two bytes. */
  lemma {:induction false} DisclosedBytes(items: seq<Item>, local: bool)
    ensures ArrayBytes(Disclosed(items, local)) + 2 * (|items| - |Disclosed(items, local)|) <= ArrayBytes(items)
  {
    if items != [] {
      var n := |items| - 1;
      hide ArrayBytes;
      var front, kept := items[..n], Disclosed(items[..n], local);
      DisclosedBytes(front, local);
      ArraySnoc(front, items[n]);
      assert front + [items[n]] == items;
      if Eligible(items[n], local) {
        assert Disclosed(items, local) == kept + [items[n]];
        ArraySnoc(kept, items[n]);
        assert kept != [] ==> front != [];
      } else {
        assert Disclosed(items, local) == kept;
      }
    }
  }

  lemma ArraySnoc(items: seq<Item>, last: Item)
    ensures ArrayBytes(items + [last]) == ArrayBytes(items) + (if items == [] then 0 else 1) + ItemBytes(last)
  {
    assert Sizes(items + [last])[..|items|] == Sizes(items);
  }

  function DisclosedGroups(items: Groups, local: bool): Groups {
    Groups(Disclosed(items.facts, local), Disclosed(items.decisions, local), Disclosed(items.preferences, local),
           Disclosed(items.constraints, local), Disclosed(items.events, local), Disclosed(items.notes, local),
           Disclosed(items.disputed, local))
  }

  function Filtered(p: Package, local: bool): Package
    requires p.included == p.items.Count()
  {
    var items := DisclosedGroups(p.items, local);
    var removed := p.items.Count() - items.Count();
    Package(p.envelope, items, p.included - removed, p.omitted + removed, p.provenanceOmitted,
            p.policyOmitted + removed, 0, p.bounds)
  }

  lemma GroupsShrink(items: Groups, local: bool)
    ensures DisclosedGroups(items, local).Bytes()
      + 2 * (items.Count() - DisclosedGroups(items, local).Count()) <= items.Bytes()
    ensures DisclosedGroups(items, local).Count() <= items.Count()
  {
    hide ArrayBytes, Disclosed;
    DisclosedBytes(items.facts, local);
    DisclosedBytes(items.decisions, local);
    DisclosedBytes(items.preferences, local);
    DisclosedBytes(items.constraints, local);
    DisclosedBytes(items.events, local);
    DisclosedBytes(items.notes, local);
    DisclosedBytes(items.disputed, local);
  }

  /** The freed bytes outweigh the growth of the counters. */
  lemma FilteredIsSmaller(p: Package, local: bool)
    requires p.included == p.items.Count()
    ensures Base(Filtered(p, local)) <= Base(p)
  {
    hide ArrayBytes, Disclosed, DisclosedGroups, Digits;
    var q := Filtered(p, local);
    var removed := p.included - q.included;
    GroupsShrink(p.items, local);
    DigitsGrowth(p.omitted, removed);
    DigitsGrowth(p.policyOmitted, removed);
    DigitsMonotone(q.included, p.included);
  }

  /** One group of the filter. */
  method FilterGroup(items: seq<Item>, local: bool) returns (eligible: seq<Item>, dropped: nat)
    ensures eligible == Disclosed(items, local) && dropped == |items| - |eligible|
  {
    eligible, dropped := [], 0;
    for k := 0 to |items|
      invariant eligible == Disclosed(items[..k], local) && dropped == k - |eligible|
    {
      assert items[..k + 1][..k] == items[..k];
      if Eligible(items[k], local) {
        eligible := eligible + [items[k]];
      } else {
        dropped := dropped + 1;
      }
    }
    assert items[..|items|] == items;
  }

  /** The groups filtered so far, in the order of the source's loop. */
  function FilteredUpTo(items: Groups, local: bool, n: nat): Groups
    requires n <= |GROUPS|
  {
    if n == 0 then Groups([], [], [], [], [], [], [])
    else FilteredUpTo(items, local, n - 1).Set(GROUPS[n - 1], Disclosed(items.Get(GROUPS[n - 1]), local))
  }

  function RemovedIn(items: Groups, local: bool, n: nat): nat
    requires n <= |GROUPS|
  {
    if n == 0 then 0
    else RemovedIn(items, local, n - 1) + |items.Get(GROUPS[n - 1])| - |Disclosed(items.Get(GROUPS[n - 1]), local)|
  }

  lemma AllFiltered(items: Groups, local: bool)
    ensures FilteredUpTo(items, local, 7) == DisclosedGroups(items, local)
    ensures RemovedIn(items, local, 7) == items.Count() - DisclosedGroups(items, local).Count()
  {
    hide Disclosed, FilteredUpTo, RemovedIn;
    FilteredNext(items, local, 0);
    FilteredNext(items, local, 1);
    FilteredNext(items, local, 2);
    FilteredNext(items, local, 3);
    FilteredNext(items, local, 4);
    FilteredNext(items, local, 5);
    FilteredNext(items, local, 6);
  }

  lemma FilteredNext(items: Groups, local: bool, n: nat)
    requires n < |GROUPS|
    ensures var list := items.Get(GROUPS[n]);
      FilteredUpTo(items, local, n + 1) == FilteredUpTo(items, local, n).Set(GROUPS[n], Disclosed(list, local)) &&
      RemovedIn(items, local, n + 1) == RemovedIn(items, local, n) + |list| - |Disclosed(list, local)|
    ensures n == 0 ==> FilteredUpTo(items, local, 0) == Groups([], [], [], [], [], [], [])
    ensures n == 0 ==> RemovedIn(items, local, 0) == 0
  {}

  /** The loop over the groups. */
  method FilterGroups(items: Groups, local: bool) returns (groups: Groups, policyOmitted: nat)
    ensures groups == FilteredUpTo(items, local, |GROUPS|) && policyOmitted == RemovedIn(items, local, |GROUPS|)
  {
    hide Disclosed;
    groups, policyOmitted := Groups([], [], [], [], [], [], []), 0;
    for n := 0 to |GROUPS|
      invariant groups == FilteredUpTo(items, local, n) && policyOmitted == RemovedIn(items, local, n)
    {
      var name := GROUPS[n];
      var eligible, dropped := FilterGroup(items.Get(name), local);
      groups, policyOmitted := groups.Set(name, eligible), policyOmitted + dropped;
    }
  }

  /** Main result: filtering never overflows the bound, and leaves a package that accounts for the
      same results and can be filtered again. */
  method FilterForTarget(p: Package, local: bool) returns (r: Option<Package>)
    requires WellFormed(p)
    ensures r == Some(Filtered(p, local).(serialized := Size(Base(Filtered(p, local)))))
    ensures WellFormed(r.value) && r.value.included + r.value.omitted == p.included + p.omitted
  {
    FilteredFits(p, local);
    var groups, policyOmitted := FilterGroups(p.items, local);
    FilteredIs(p, local, groups, policyOmitted);
    hide Filtered, Base, Size, FilteredUpTo, RemovedIn;
    var q := Package(p.envelope, groups, p.included - policyOmitted, p.omitted + policyOmitted, p.provenanceOmitted,
                     p.policyOmitted + policyOmitted, 0, p.bounds);
    var sized := SerializedBytes(Base(q));
    if sized.size > p.bounds.maxBytes {
      return None;
    }
    BaseIgnoresSize(q, sized.size);
    return Some(q.(serialized := sized.size));
  }

  lemma FilteredIs(p: Package, local: bool, groups: Groups, policyOmitted: nat)
    requires p.included == p.items.Count()
    requires groups == FilteredUpTo(p.items, local, |GROUPS|) && policyOmitted == RemovedIn(p.items, local, |GROUPS|)
    ensures policyOmitted <= p.included
    ensures Filtered(p, local) ==
      Package(p.envelope, groups, p.included - policyOmitted, p.omitted + policyOmitted, p.provenanceOmitted,
              p.policyOmitted + policyOmitted, 0, p.bounds)
  {
    hide DisclosedGroups, FilteredUpTo, RemovedIn;
    AllFiltered(p.items, local);
    GroupsShrink(p.items, local);
  }

  lemma FilteredFits(p: Package, local: bool)
    requires WellFormed(p)
    ensures var q := Filtered(p, local);
      q.included == q.items.Count() && q.bounds == p.bounds && Size(Base(q)) <= p.bounds.maxBytes
  {
    hide DisclosedGroups, Base, Size;
    GroupsShrink(p.items, local);
    FilteredIsSmaller(p, local);
    SizeMonotone(Base(Filtered(p, local)), Base(p));
  }

  lemma BaseIgnoresSize(p: Package, size: nat)
    ensures Base(p.(serialized := size)) == Base(p)
  {}

  /** A filtered group is the eligible part of the group, in the same order. */
  lemma {:induction false} DisclosedIsSubsequence(items: seq<Item>, local: bool) returns (at: seq<nat>)
    ensures |at| == |Disclosed(items, local)|
    ensures forall k :: 0 <= k < |at| ==> at[k] < |items| && Disclosed(items, local)[k] == items[at[k]]
    ensures forall j, k :: 0 <= j < k < |at| ==> at[j] < at[k]
    ensures forall n :: 0 <= n < |items| ==> (n in at <==> Eligible(items[n], local))
  {
    at := [];
    if items != [] {
      var n := |items| - 1;
      at := DisclosedIsSubsequence(items[..n], local);
      if Eligible(items[n], local) {
        at := at + [n];
      }
    }
  }
}
