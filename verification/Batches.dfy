/** Cutting a stream into consecutive groups: greedily, in order, with the fewest groups there can be. */
module Batches {
  import opened Prelude

  // An item and its size in bytes.
  datatype Item = Item(key: int, size: nat)

  // The bounds of a group: a count, if there is one, and a number of bytes.
  datatype Bounds = Bounds(count: Option<nat>, bytes: nat)

  function Total(group: seq<Item>): nat {
    if group == [] then 0 else Total(group[..|group| - 1]) + group[|group| - 1].size
  }

  /** A group within bounds: at most `count` items (a count of zero bounds nothing), and within the bytes
      unless it is one item alone. */
  predicate Fits(b: Bounds, group: seq<Item>) {
    && group != []
    && (b.count.Some? && b.count.value > 0 ==> |group| <= b.count.value)
    && (|group| == 1 || Total(group) <= b.bytes)
  }

  function Joined(groups: seq<seq<Item>>): seq<Item> {
    if groups == [] then [] else Joined(groups[..|groups| - 1]) + groups[|groups| - 1]
  }

  predicate Cut(b: Bounds, items: seq<Item>, groups: seq<seq<Item>>) {
    Joined(groups) == items && forall i :: 0 <= i < |groups| ==> Fits(b, groups[i])
  }

  // --- The greedy loop ---------------------------------------------------------------------------

  /** Whether the next item starts a new group. */
  predicate Full(b: Bounds, current: seq<Item>, size: nat, next: Item) {
    current != [] && (b.count == Some(|current|) || size + next.size > b.bytes)
  }

  /** No group could have taken the item after it. */
  predicate Greedy(b: Bounds, groups: seq<seq<Item>>) {
    forall i, j :: 0 <= i < |groups| && j == i + 1 && j < |groups| ==>
      groups[i] != [] && groups[j] != [] && !Fits(b, groups[i] + [groups[j][0]])
  }

  lemma TotalMore(group: seq<Item>, next: Item)
    ensures Total(group + [next]) == Total(group) + next.size
  {
    assert (group + [next])[..|group|] == group;
  }

  lemma JoinedMore(groups: seq<seq<Item>>, group: seq<Item>)
    ensures Joined(groups + [group]) == Joined(groups) + group
  {
    assert (groups + [group])[..|groups|] == groups;
  }

  /** Where the loop stands: what it has cut off, and the group it is filling. */
  predicate Filling(b: Bounds, done: seq<Item>, groups: seq<seq<Item>>, current: seq<Item>) {
    && Joined(groups) + current == done
    && (forall k :: 0 <= k < |groups| ==> Fits(b, groups[k])) && Greedy(b, groups)
    && (current == [] ==> groups == [])
    && (current != [] ==> Fits(b, current))
    && (current != [] && groups != [] ==> !Fits(b, groups[|groups| - 1] + [current[0]]))
  }

  lemma NewGroup(b: Bounds, done: seq<Item>, groups: seq<seq<Item>>, current: seq<Item>, next: Item)
    requires Filling(b, done, groups, current) && Full(b, current, Total(current), next)
    ensures Filling(b, done + [next], groups + [current], [next])
  {
    hide Joined;
    JoinedMore(groups, current);
    TotalMore(current, next);
    TotalMore([], next);
    assert [] + [next] == [next];
    assert Joined(groups) + current + [next] == done + [next];
    var more := groups + [current];
    forall i, j | 0 <= i < |more| && j == i + 1 && j < |more|
      ensures more[i] != [] && more[j] != [] && !Fits(b, more[i] + [more[j][0]])
    {
      if j < |groups| {
        assert !Fits(b, groups[i] + [groups[j][0]]);
      }
    }
  }

  lemma SameGroup(b: Bounds, done: seq<Item>, groups: seq<seq<Item>>, current: seq<Item>, next: Item)
    requires Filling(b, done, groups, current) && !Full(b, current, Total(current), next)
    ensures Filling(b, done + [next], groups, current + [next])
  {
    TotalMore(current, next);
    assert Joined(groups) + (current + [next]) == Joined(groups) + current + [next];
  }

  lemma LastCut(b: Bounds, items: seq<Item>, groups: seq<seq<Item>>, current: seq<Item>)
    requires Filling(b, items, groups, current) && current != []
    ensures Cut(b, items, groups + [current]) && Greedy(b, groups + [current])
  {
    JoinedMore(groups, current);
    var more := groups + [current];
    forall i, j | 0 <= i < |more| && j == i + 1 && j < |more|
      ensures more[i] != [] && more[j] != [] && !Fits(b, more[i] + [more[j][0]])
    {
      if j < |groups| {
        assert !Fits(b, groups[i] + [groups[j][0]]);
      }
    }
  }

  /** `iter_batches` and `slices`: every item once and in order, each group within bounds, each as full as it can be. */
  method Groups(b: Bounds, items: seq<Item>) returns (groups: seq<seq<Item>>)
    ensures Cut(b, items, groups) && Greedy(b, groups)
  {
    hide Filling, Full;
    groups := [];
    var current, size := [], 0;
    StartFilling(b);
    for i := 0 to |items|
      invariant Filling(b, items[..i], groups, current) && size == Total(current)
    {
      var next := items[i];
      assert items[..i + 1] == items[..i] + [next];
      if Full(b, current, size, next) {
        NewGroup(b, items[..i], groups, current, next);
        groups := groups + [current];
        current, size := [], 0;
      } else {
        SameGroup(b, items[..i], groups, current, next);
      }
      TotalMore(current, next);
      assert [] + [next] == [next];
      current, size := current + [next], size + next.size;
    }
    assert items[..|items|] == items;
    if current != [] {
      LastCut(b, items, groups, current);
      groups := groups + [current];
    } else {
      NothingLeft(b, items, groups);
    }
  }

  lemma StartFilling(b: Bounds)
    ensures Filling(b, [], [], [])
  {
  }

  lemma NothingLeft(b: Bounds, items: seq<Item>, groups: seq<seq<Item>>)
    requires Filling(b, items, groups, [])
    ensures Cut(b, items, groups) && Greedy(b, groups)
  {
  }

  // --- The fewest groups -----------------------------------------------------------------------------

  /** How many items the first `k` groups hold. */
  function Reach(groups: seq<seq<Item>>, k: nat): nat
    requires k <= |groups|
  {
    |Joined(groups[..k])|
  }

  lemma {:induction false} JoinedIsPrefix(groups: seq<seq<Item>>, k: nat)
    requires k <= |groups|
    ensures Joined(groups[..k]) <= Joined(groups)
    decreases |groups|
  {
    if k == |groups| {
      assert groups[..k] == groups;
    } else {
      var n := |groups| - 1;
      JoinedIsPrefix(groups[..n], k);
      assert groups[..n][..k] == groups[..k];
    }
  }

  /** A group stands between the reach of the groups before it and its own. */
  lemma GroupIs(groups: seq<seq<Item>>, k: nat)
    requires k < |groups|
    ensures Reach(groups, k) + |groups[k]| == Reach(groups, k + 1) <= |Joined(groups)|
    ensures groups[k] == Joined(groups)[Reach(groups, k)..Reach(groups, k + 1)]
  {
    assert groups[..k + 1][..k] == groups[..k];
    JoinedIsPrefix(groups, k + 1);
    JoinedIsPrefix(groups, k);
  }

  lemma PartOfPart(items: seq<Item>, start: nat, end: nat, from: nat, to: nat)
    requires start <= from <= to <= end <= |items|
    ensures items[from..to] == items[start..end][from - start..to - start]
  {
    var one, other := items[from..to], items[start..end][from - start..to - start];
    assert |one| == |other|;
    forall i | 0 <= i < |one| ensures one[i] == other[i] {
      assert other[i] == items[start..end][from - start + i] == items[from + i];
    }
  }

  lemma {:induction false} TotalOfPart(group: seq<Item>, i: nat, j: nat)
    requires i <= j <= |group|
    ensures Total(group[i..j]) <= Total(group)
    decreases |group|
  {
    if i < j {
      var n := |group| - 1;
      var part := group[i..j];
      if j == |group| {
        TotalOfPart(group[..n], i, n);
        PartOfPart(group, 0, n, i, n);
        assert part[..|part| - 1] == group[i..n];
      } else {
        TotalOfPart(group[..n], i, j);
        PartOfPart(group, 0, n, i, j);
      }
    }
  }

  /** A non-empty part of a group within bounds is within them. */
  lemma PartFits(b: Bounds, group: seq<Item>, i: nat, j: nat)
    requires Fits(b, group) && i < j <= |group|
    ensures Fits(b, group[i..j])
  {
    TotalOfPart(group, i, j);
  }

  /** Whatever a cut's first `k` groups hold, the greedy cut's first `k` hold as much. */
  lemma {:induction false} GreedyLeads(b: Bounds, items: seq<Item>, greedy: seq<seq<Item>>, other: seq<seq<Item>>, k: nat)
    requires Cut(b, items, greedy) && Greedy(b, greedy) && Cut(b, items, other)
    requires k <= |greedy| && k <= |other|
    ensures Reach(greedy, k) >= Reach(other, k)
  {
    if k > 0 {
      hide Cut, Greedy;
      GreedyLeads(b, items, greedy, other, k - 1);
      StillLeads(b, items, greedy, other, k - 1);
    }
  }

  /** A group that starts no earlier than the other cut's ends no earlier: had it stopped short, the item after
      it would have fitted, being part of the other's group. */
  lemma StillLeads(b: Bounds, items: seq<Item>, greedy: seq<seq<Item>>, other: seq<seq<Item>>, k: nat)
    requires Cut(b, items, greedy) && Greedy(b, greedy) && Cut(b, items, other)
    requires k < |greedy| && k < |other| && Reach(greedy, k) >= Reach(other, k)
    ensures Reach(greedy, k + 1) >= Reach(other, k + 1)
  {
    hide Joined, Fits;
    GroupIs(greedy, k);
    GroupIs(other, k);
    var start, from, to, end := Reach(other, k), Reach(greedy, k), Reach(greedy, k + 1), Reach(other, k + 1);
    if to < end {
      LastGroup(greedy, k + 1);
      GroupIs(greedy, k + 1);
      NextItem(items, greedy, k);
      PartOfPart(items, start, end, from, to + 1);
      PartFits(b, other[k], from - start, to + 1 - start);
    }
  }

  /** A group with the first item of the next. */
  lemma NextItem(items: seq<Item>, groups: seq<seq<Item>>, k: nat)
    requires Joined(groups) == items && k + 1 < |groups| && groups[k + 1] != []
    ensures Reach(groups, k) <= Reach(groups, k + 1) < |items|
    ensures groups[k] + [groups[k + 1][0]] == items[Reach(groups, k)..Reach(groups, k + 1) + 1]
  {
    hide Joined;
    GroupIs(groups, k);
    GroupIs(groups, k + 1);
    assert groups[k + 1][0] == items[Reach(groups, k + 1)];
  }

  /** Groups that do not reach the end are not the last. */
  lemma LastGroup(groups: seq<seq<Item>>, k: nat)
    requires k <= |groups| && Reach(groups, k) < |Joined(groups)|
    ensures k < |groups|
  {
    assert groups[..|groups|] == groups;
  }

  /** No cut of the same items within the same bounds has fewer groups. */
  lemma GreedyIsFewest(b: Bounds, items: seq<Item>, greedy: seq<seq<Item>>, other: seq<seq<Item>>)
    requires Cut(b, items, greedy) && Greedy(b, greedy) && Cut(b, items, other)
    ensures |greedy| <= |other|
  {
    if |other| < |greedy| {
      var k := |other|;
      GreedyLeads(b, items, greedy, other, k);
      assert other[..k] == other;
      GroupIs(greedy, k);
    }
  }
}
