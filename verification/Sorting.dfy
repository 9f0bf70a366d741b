// list.sort and sorted(): any order given as a total preorder.
module Sorting {
  ghost predicate TotalPreorder<T(!new)>(order: (T, T) -> bool) {
    && (forall a, b :: order(a, b) || order(b, a))
    && (forall a, b, c :: order(a, b) && order(b, c) ==> order(a, c))
  }

  ghost predicate Sorted<T>(items: seq<T>, order: (T, T) -> bool) {
    forall i, j :: 0 <= i < j < |items| ==> order(items[i], items[j])
  }

  ghost predicate NoDuplicates<T>(items: seq<T>) {
    forall i, j :: 0 <= i < j < |items| ==> items[i] != items[j]
  }

  lemma InsertKeepsItems<T>(item: T, items: seq<T>, i: nat)
    requires i <= |items|
    ensures multiset(items[..i] + [item] + items[i..]) == multiset(items) + multiset{item}
  {
    assert items == items[..i] + items[i..];
  }

  lemma InsertKeepsSorted<T(!new)>(item: T, items: seq<T>, i: nat, order: (T, T) -> bool)
    requires TotalPreorder(order) && Sorted(items, order) && i <= |items|
    requires forall k :: 0 <= k < i ==> order(items[k], item)
    requires i < |items| ==> !order(items[i], item)
    ensures Sorted(items[..i] + [item] + items[i..], order)
  {
    var sorted := items[..i] + [item] + items[i..];
    forall j, k | 0 <= j < k < |sorted| ensures order(sorted[j], sorted[k]) {
      if j == i {
        assert order(item, items[i]);
        assert k - 1 > i ==> order(items[i], items[k - 1]);
      }
    }
  }

  method Insert<T(!new)>(item: T, items: seq<T>, order: (T, T) -> bool) returns (sorted: seq<T>)
    requires TotalPreorder(order) && Sorted(items, order)
    ensures Sorted(sorted, order) && multiset(sorted) == multiset(items) + multiset{item}
  {
    var i := 0;
    while i < |items| && order(items[i], item)
      invariant 0 <= i <= |items|
      invariant forall k :: 0 <= k < i ==> order(items[k], item)
    {
      i := i + 1;
    }
    InsertKeepsItems(item, items, i);
    InsertKeepsSorted(item, items, i, order);
    sorted := items[..i] + [item] + items[i..];
  }

  method Sort<T(!new)>(items: seq<T>, order: (T, T) -> bool) returns (sorted: seq<T>)
    requires TotalPreorder(order)
    ensures Sorted(sorted, order) && multiset(sorted) == multiset(items)
  {
    sorted := [];
    for n := 0 to |items|
      invariant Sorted(sorted, order) && multiset(sorted) == multiset(items[..n])
    {
      sorted := Insert(items[n], sorted, order);
      assert items[..n + 1] == items[..n] + [items[n]];
    }
    assert items[..|items|] == items;
  }

  lemma {:induction false} OccursOnce<T>(items: seq<T>, item: T)
    requires NoDuplicates(items)
    ensures multiset(items)[item] <= 1
  {
    if items != [] {
      OccursOnce(items[1..], item);
      assert items == [items[0]] + items[1..];
      assert item in multiset(items[1..]) <==> item in items[1..];
    }
  }

  // A rearrangement holds the same items, and none twice if none was twice before.
  lemma RearrangementKeepsItems<T>(items: seq<T>, sorted: seq<T>)
    requires multiset(sorted) == multiset(items)
    ensures forall item :: item in sorted <==> item in items
    ensures NoDuplicates(items) ==> NoDuplicates(sorted)
  {
    forall item ensures item in sorted <==> item in items {
      assert item in multiset(sorted) <==> item in multiset(items);
    }
    if NoDuplicates(items) {
      forall i, j | 0 <= i < j < |sorted| ensures sorted[i] != sorted[j] {
        OccursOnce(items, sorted[i]);
        assert sorted == sorted[..j] + sorted[j..];
        assert multiset(sorted)[sorted[i]] == multiset(sorted[..j])[sorted[i]] + multiset(sorted[j..])[sorted[i]];
        assert sorted[i] in sorted[..j] && sorted[j] in sorted[j..];
      }
    }
  }
}
