/** What the greedy assembly of a context package keeps, said of the selection as a whole: nothing that was left out
    would have fitted, and every kept item has as many of its references as the limits allow. */
module ContextSelection {
  import opened PackageSize
  import opened ContextPackages
  import opened Options

  /** As many references as there are, and as both limits allow. */
  predicate KeepsMost(item: Item, perItem: nat, remaining: nat) {
    var n := item.retained;
    && n <= perItem && n <= remaining && n <= |item.result.provenance|
    && (n == perItem || n == remaining || n == |item.result.provenance|)
  }

  /** An item that would follow the kept ones. */
  predicate Follows(kept: seq<Item>, item: Item, r: MemoryResult, b: Bounds) {
    && item.result == r && Retained(kept) <= b.maxReferences
    && KeepsMost(item, b.maxPerItem, b.maxReferences - Retained(kept))
  }

  /** The result at `i` was left out for a reason: the first `n` kept items, those before it, leave no room. */
  ghost predicate HasNoRoom(kept: seq<Item>, at: seq<nat>, results: seq<MemoryResult>, i: nat, n: nat, envelope: nat,
      total: nat, b: Bounds)
    requires n <= |kept| == |at| && i < |results|
  {
    && (forall k :: 0 <= k < |at| ==> (at[k] < i <==> k < n))
    && (n >= b.maxItems || exists item ::
          Follows(kept[..n], item, results[i], b) && SizeOf(kept[..n] + [item], envelope, total, b) > b.maxBytes)
  }

  ghost predicate WasRight(kept: seq<Item>, at: seq<nat>, results: seq<MemoryResult>, k: nat, envelope: nat, total: nat,
      b: Bounds)
    requires k < |kept| == |at| && at[k] < |results|
  {
    && k < b.maxItems && Follows(kept[..k], kept[k], results[at[k]], b)
    && SizeOf(kept[..k + 1], envelope, total, b) <= b.maxBytes
  }

  ghost predicate AllRight(
      kept: seq<Item>, at: seq<nat>, results: seq<MemoryResult>, envelope: nat, total: nat, b: Bounds)
    requires Selects(kept, results, at)
  {
    forall k :: 0 <= k < |kept| ==> WasRight(kept, at, results, k, envelope, total, b)
  }

  ghost predicate NoneMissed(
      kept: seq<Item>, at: seq<nat>, results: seq<MemoryResult>, envelope: nat, total: nat, b: Bounds)
    requires Selects(kept, results, at)
  {
    forall i :: 0 <= i < |results| && i !in at ==>
      exists n :: 0 <= n <= |kept| && HasNoRoom(kept, at, results, i, n, envelope, total, b)
  }

  /** The selection takes every result that has room when its turn comes, and no other. */
  ghost predicate IsGreedy(
      kept: seq<Item>, at: seq<nat>, results: seq<MemoryResult>, envelope: nat, total: nat, b: Bounds)
  {
    && Selects(kept, results, at)
    && AllRight(kept, at, results, envelope, total, b)
    && NoneMissed(kept, at, results, envelope, total, b)
  }

  /** What may follow is unique: the limits decide how many references it has. */
  lemma FollowerIsUnique(kept: seq<Item>, r: MemoryResult, b: Bounds, x: Item, y: Item)
    requires Follows(kept, x, r, b) && Follows(kept, y, r, b)
    ensures x == y
  {
  }

  lemma MadeItemFollows(kept: seq<Item>, r: MemoryResult, b: Bounds)
    requires Retained(kept) <= b.maxReferences
    ensures Follows(kept, MakeItem(r, b.maxReferences - Retained(kept), b), r, b)
  {
  }

  // Results that come later do not change why an earlier one was taken or left out.

  lemma RightStays(kept: seq<Item>, at: seq<nat>, front: seq<MemoryResult>, r: MemoryResult, item: Item, k: nat,
      envelope: nat, total: nat, b: Bounds)
    requires k < |kept| == |at| && at[k] < |front| && WasRight(kept, at, front, k, envelope, total, b)
    ensures WasRight(kept, at, front + [r], k, envelope, total, b)
    ensures WasRight(kept + [item], at + [|front|], front + [r], k, envelope, total, b)
  {
    hide SizeOf, Follows;
    assert (kept + [item])[..k] == kept[..k] && (kept + [item])[..k + 1] == kept[..k + 1];
  }

  lemma RoomStays(kept: seq<Item>, at: seq<nat>, front: seq<MemoryResult>, r: MemoryResult, item: Item, i: nat, m: nat,
      envelope: nat, total: nat, b: Bounds)
    requires m <= |kept| == |at| && i < |front| && HasNoRoom(kept, at, front, i, m, envelope, total, b)
    ensures HasNoRoom(kept, at, front + [r], i, m, envelope, total, b)
    ensures HasNoRoom(kept + [item], at + [|front|], front + [r], i, m, envelope, total, b)
  {
    hide SizeOf, Follows;
    assert (kept + [item])[..m] == kept[..m];
  }

  lemma SelectsNext(kept: seq<Item>, at: seq<nat>, front: seq<MemoryResult>, r: MemoryResult, item: Item)
    requires Selects(kept, front, at) && item.result == r
    ensures Selects(kept, front + [r], at) && Selects(kept + [item], front + [r], at + [|front|])
    ensures |kept| == |at| && forall k :: 0 <= k < |at| ==> at[k] < |front|
  {
  }

  lemma NotAmong(at: seq<nat>, n: nat, i: nat)
    requires i !in at + [n]
    ensures i !in at && i != n
  {
    assert (at + [n])[|at|] == n;
  }

  lemma MissesNone(kept: seq<Item>, at: seq<nat>, front: seq<MemoryResult>, r: MemoryResult, item: Item, i: nat,
      envelope: nat, total: nat, b: Bounds)
    requires Selects(kept, front, at) && NoneMissed(kept, at, front, envelope, total, b) && i < |front| && i !in at
    ensures exists m :: 0 <= m <= |kept| && HasNoRoom(kept, at, front + [r], i, m, envelope, total, b)
    ensures exists m ::
      0 <= m <= |kept| + 1 && HasNoRoom(kept + [item], at + [|front|], front + [r], i, m, envelope, total, b)
  {
    hide HasNoRoom;
    var m :| 0 <= m <= |kept| && HasNoRoom(kept, at, front, i, m, envelope, total, b);
    RoomStays(kept, at, front, r, item, i, m, envelope, total, b);
  }

  /** The next result is left out for lack of room. */
  lemma LeftOut(kept: seq<Item>, at: seq<nat>, front: seq<MemoryResult>, r: MemoryResult, item: Item, envelope: nat,
      total: nat, b: Bounds)
    requires IsGreedy(kept, at, front, envelope, total, b) && Follows(kept, item, r, b)
    requires |kept| >= b.maxItems || SizeOf(kept + [item], envelope, total, b) > b.maxBytes
    ensures IsGreedy(kept, at, front + [r], envelope, total, b)
  {
    SelectsNext(kept, at, front, r, item);
    assert HasNoRoom(kept, at, front + [r], |front|, |kept|, envelope, total, b) by {
      assert kept[..|kept|] == kept;
    }
    hide SizeOf, Follows, WasRight, HasNoRoom, Selects;
    forall k | 0 <= k < |kept|
      ensures WasRight(kept, at, front + [r], k, envelope, total, b)
    {
      RightStays(kept, at, front, r, item, k, envelope, total, b);
    }
    forall i | 0 <= i < |front| && i !in at
      ensures exists m :: 0 <= m <= |kept| && HasNoRoom(kept, at, front + [r], i, m, envelope, total, b)
    {
      MissesNone(kept, at, front, r, item, i, envelope, total, b);
    }
  }

  /** The next result has room and is taken. */
  lemma TakenIn(kept: seq<Item>, at: seq<nat>, front: seq<MemoryResult>, r: MemoryResult, item: Item, envelope: nat,
      total: nat, b: Bounds)
    requires IsGreedy(kept, at, front, envelope, total, b) && Follows(kept, item, r, b)
    requires |kept| < b.maxItems && SizeOf(kept + [item], envelope, total, b) <= b.maxBytes
    ensures IsGreedy(kept + [item], at + [|front|], front + [r], envelope, total, b)
  {
    SelectsNext(kept, at, front, r, item);
    hide Selects;
    TakenRight(kept, at, front, r, item, envelope, total, b);
    TakenMissesNone(kept, at, front, r, item, envelope, total, b);
    hide AllRight, NoneMissed, Follows, SizeOf;
  }

  lemma TakenRight(kept: seq<Item>, at: seq<nat>, front: seq<MemoryResult>, r: MemoryResult, item: Item, envelope: nat,
      total: nat, b: Bounds)
    requires Selects(kept, front, at) && AllRight(kept, at, front, envelope, total, b)
    requires Selects(kept + [item], front + [r], at + [|front|]) && Follows(kept, item, r, b)
    requires |kept| < b.maxItems && SizeOf(kept + [item], envelope, total, b) <= b.maxBytes
    ensures AllRight(kept + [item], at + [|front|], front + [r], envelope, total, b)
  {
    SelectsNext(kept, at, front, r, item);
    hide SizeOf, Follows, Selects;
    var longer, after := kept + [item], at + [|front|];
    forall k | 0 <= k <= |kept|
      ensures WasRight(longer, after, front + [r], k, envelope, total, b)
    {
      if k < |kept| {
        RightStays(kept, at, front, r, item, k, envelope, total, b);
      } else {
        assert longer[..k] == kept && longer[..k + 1] == longer;
      }
    }
  }

  lemma TakenMissesNone(kept: seq<Item>, at: seq<nat>, front: seq<MemoryResult>, r: MemoryResult, item: Item,
      envelope: nat, total: nat, b: Bounds)
    requires Selects(kept, front, at) && NoneMissed(kept, at, front, envelope, total, b)
    requires Selects(kept + [item], front + [r], at + [|front|]) && item.result == r
    ensures NoneMissed(kept + [item], at + [|front|], front + [r], envelope, total, b)
  {
    SelectsNext(kept, at, front, r, item);
    hide Selects, HasNoRoom;
    forall i | 0 <= i < |front| + 1 && i !in at + [|front|]
      ensures exists m ::
        0 <= m <= |kept| + 1 && HasNoRoom(kept + [item], at + [|front|], front + [r], i, m, envelope, total, b)
    {
      NotAmong(at, |front|, i);
      MissesNone(kept, at, front, r, item, i, envelope, total, b);
    }
  }

  /** Main result: the selection that assembly reports is greedy in this sense. */
  lemma {:induction false} GreedyIsGreedy(results: seq<MemoryResult>, envelope: nat, total: nat, b: Bounds)
    returns (at: seq<nat>)
    ensures IsGreedy(Greedy(results, envelope, total, b), at, results, envelope, total, b)
  {
    hide SizeOf, IsGreedy, Retained, MakeItem, Follows;
    at := [];
    if results == [] {
      NothingIsGreedy(envelope, total, b);
    } else {
      var n := |results| - 1;
      var kept := Greedy(results[..n], envelope, total, b);
      at := GreedyIsGreedy(results[..n], envelope, total, b);
      GreedyWithinBounds(results[..n], envelope, total, b);
      KeptFits(kept, n, envelope, total, b);
      var item := MakeItem(results[n], b.maxReferences - Retained(kept), b);
      MadeItemFollows(kept, results[n], b);
      assert results == results[..n] + [results[n]];
      if |kept| < b.maxItems && SizeOf(kept + [item], envelope, total, b) <= b.maxBytes {
        TakenIn(kept, at, results[..n], results[n], item, envelope, total, b);
        at := at + [n];
      } else {
        LeftOut(kept, at, results[..n], results[n], item, envelope, total, b);
      }
    }
  }

  lemma NothingIsGreedy(envelope: nat, total: nat, b: Bounds)
    ensures IsGreedy([], [], [], envelope, total, b)
  {
  }

  // ---------------------------------------------------------------- where an item goes, and what it weighs

  /** Disputed items have a group of their own, all others are grouped by kind. */
  lemma {:induction false} GroupedByKind(kept: seq<Item>, item: Item)
    ensures item in kept && item.result.disputed ==> item in Partition(kept).disputed
    ensures forall g :: g != Disputed ==>
      (item in Partition(kept).Get(g) <==> item in kept && !item.result.disputed && item.result.kind == g)
  {
    forall g {
      InGroupHolds(kept, g, item);
    }
    hide InGroup;
  }

  lemma {:induction false} InGroupHolds(kept: seq<Item>, g: Group, item: Item)
    ensures item in InGroup(kept, g) <==> item in kept && GroupOf(item.result) == g
  {
    if kept != [] {
      InGroupHolds(kept[..|kept| - 1], g, item);
      assert kept == kept[..|kept| - 1] + [kept[|kept| - 1]];
    }
    hide GroupOf;
  }

  function Sum(sizes: seq<nat>): nat {
    if sizes == [] then 0 else sizes[0] + Sum(sizes[1..])
  }

  lemma {:induction false} SumSnoc(sizes: seq<nat>, last: nat)
    ensures Sum(sizes + [last]) == Sum(sizes) + last
  {
    if sizes != [] {
      assert (sizes + [last])[1..] == sizes[1..] + [last];
      SumSnoc(sizes[1..], last);
    }
  }

  /** A JSON array weighs its elements and one comma less than there are elements. */
  lemma {:induction false} ListIsSum(sizes: seq<nat>)
    ensures ListBytes(sizes) == Sum(sizes) + if sizes == [] then 0 else |sizes| - 1
  {
    if sizes != [] {
      var n := |sizes| - 1;
      ListIsSum(sizes[..n]);
      SumSnoc(sizes[..n], sizes[n]);
      assert sizes == sizes[..n] + [sizes[n]];
    }
  }

  // ---------------------------------------------------------------- what filtering leaves

  lemma {:induction false} DisclosedHolds(items: seq<Item>, local: bool, item: Item)
    ensures item in Disclosed(items, local) <==> item in items && (local || item.result.remoteAllowed)
  {
    if items != [] {
      var n := |items| - 1;
      DisclosedHolds(items[..n], local, item);
      assert items == items[..n] + [items[n]];
    }
  }

  /** Filtering leaves exactly the items that may go to the target, in every group, and moves the others from one
      counter to two. */
  lemma FilteredAccounts(p: Package, local: bool, g: Group, item: Item)
    requires p.included == p.items.Count()
    ensures var q := Filtered(p, local); var removed := p.included - q.included;
      && (item in q.items.Get(g) <==> item in p.items.Get(g) && (local || item.result.remoteAllowed))
      && removed >= 0 && q.included == q.items.Count()
      && q.omitted == p.omitted + removed && q.policyOmitted == p.policyOmitted + removed
      && q.provenanceOmitted == p.provenanceOmitted && q.envelope == p.envelope && q.bounds == p.bounds
  {
    hide Disclosed;
    DisclosedHolds(p.items.Get(g), local, item);
    GroupsShrink(p.items, local);
  }

  /** Every reference of a kept item is either kept or counted as omitted, and nothing else is counted. */
  lemma {:induction false} ReferencesAddUp(kept: seq<Item>)
    requires forall k :: 0 <= k < |kept| ==> kept[k].retained <= |kept[k].result.provenance|
    ensures Retained(kept) + Omitted(kept) == Sum(ReferenceCounts(kept))
  {
    if kept != [] {
      var n := |kept| - 1;
      ReferencesAddUp(kept[..n]);
      SumSnoc(ReferenceCounts(kept[..n]), |kept[n].result.provenance|);
      assert ReferenceCounts(kept) == ReferenceCounts(kept[..n]) + [|kept[n].result.provenance|];
    }
  }

  function ReferenceCounts(kept: seq<Item>): seq<nat> {
    seq(|kept|, k requires 0 <= k < |kept| => |kept[k].result.provenance|)
  }
}
