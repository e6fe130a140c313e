/** What the library sorts promise: sort.SliceStable by a total preorder, and sort.Strings by byte order. */
module Sorting {
  /** `before(a, b)` is whether a may stand before b. */
  ghost predicate TotalPreorder<T(!new)>(before: (T, T) -> bool) {
    && (forall a, b :: before(a, b) || before(b, a))
    && (forall a, b, c :: before(a, b) && before(b, c) ==> before(a, c))
  }

  /** `x` after the last element it need not precede. */
  function Insert<T>(sorted: seq<T>, x: T, before: (T, T) -> bool): seq<T> {
    if sorted == [] || before(sorted[|sorted| - 1], x) then sorted + [x]
    else Insert(sorted[..|sorted| - 1], x, before) + [sorted[|sorted| - 1]]
  }

  function StableSort<T>(items: seq<T>, before: (T, T) -> bool): seq<T> {
    if items == [] then [] else Insert(StableSort(items[..|items| - 1], before), items[|items| - 1], before)
  }

  ghost predicate Ordered<T>(items: seq<T>, before: (T, T) -> bool) {
    forall i, j :: 0 <= i < j < |items| ==> before(items[i], items[j])
  }

  lemma {:induction false} InsertKeepsElements<T>(sorted: seq<T>, x: T, before: (T, T) -> bool)
    ensures |Insert(sorted, x, before)| == |sorted| + 1
    ensures multiset(Insert(sorted, x, before)) == multiset(sorted) + multiset{x}
  {
    if sorted != [] && !before(sorted[|sorted| - 1], x) {
      var n := |sorted| - 1;
      InsertKeepsElements(sorted[..n], x, before);
      assert sorted == sorted[..n] + [sorted[n]];
    }
  }

  lemma {:induction false} InsertStaysBefore<T>(sorted: seq<T>, x: T, last: T, before: (T, T) -> bool)
    requires before(x, last) && forall i :: 0 <= i < |sorted| ==> before(sorted[i], last)
    ensures forall i :: 0 <= i < |Insert(sorted, x, before)| ==> before(Insert(sorted, x, before)[i], last)
  {
    if sorted != [] && !before(sorted[|sorted| - 1], x) {
      InsertStaysBefore(sorted[..|sorted| - 1], x, last, before);
    }
  }

  lemma OrderedOneMore<T>(items: seq<T>, last: T, before: (T, T) -> bool)
    requires Ordered(items, before) && forall i :: 0 <= i < |items| ==> before(items[i], last)
    ensures Ordered(items + [last], before)
  {
  }

  lemma {:induction false} InsertOrders<T(!new)>(sorted: seq<T>, x: T, before: (T, T) -> bool)
    requires TotalPreorder(before) && Ordered(sorted, before)
    ensures Ordered(Insert(sorted, x, before), before)
  {
    if sorted != [] {
      var n := |sorted| - 1;
      if before(sorted[n], x) {
        forall i | 0 <= i <= n ensures before(sorted[i], x) {
          assert i < n ==> before(sorted[i], sorted[n]);
        }
        OrderedOneMore(sorted, x, before);
      } else {
        InsertOrders(sorted[..n], x, before);
        InsertStaysBefore(sorted[..n], x, sorted[n], before);
        OrderedOneMore(Insert(sorted[..n], x, before), sorted[n], before);
      }
    }
  }

  lemma {:induction false} SortOrders<T(!new)>(items: seq<T>, before: (T, T) -> bool)
    requires TotalPreorder(before)
    ensures Ordered(StableSort(items, before), before)
    ensures multiset(StableSort(items, before)) == multiset(items)
  {
    if items != [] {
      var n := |items| - 1;
      SortOrders(items[..n], before);
      InsertOrders(StableSort(items[..n], before), items[n], before);
      InsertKeepsElements(StableSort(items[..n], before), items[n], before);
      assert items == items[..n] + [items[n]];
    }
  }

  // ----- only one order -----

  ghost predicate Antisymmetric<T(!new)>(items: seq<T>, before: (T, T) -> bool) {
    forall a, b :: a in items && b in items && before(a, b) && before(b, a) ==> a == b
  }

  lemma FirstIsLeast<T(!new)>(items: seq<T>, x: T, before: (T, T) -> bool)
    requires TotalPreorder(before) && Ordered(items, before) && x in items
    ensures before(items[0], x)
  {
    var i :| 0 <= i < |items| && items[i] == x;
    assert before(x, x);
  }

  lemma TailElements<T>(items: seq<T>)
    requires items != []
    ensures multiset(items[1..]) == multiset(items) - multiset{items[0]}
  {
    assert items == [items[0]] + items[1..];
  }

  lemma SameElements<T>(a: seq<T>, b: seq<T>)
    requires multiset(a) == multiset(b)
    ensures |a| == |b| && forall x :: x in a <==> x in b
  {
    assert |multiset(a)| == |multiset(b)|;
    forall x ensures x in a <==> x in b {
      assert x in a <==> x in multiset(a);
      assert x in b <==> x in multiset(b);
    }
  }

  /** Elements that no two tie have one ordered arrangement. */
  lemma {:induction false} OrderedIsUnique<T(!new)>(a: seq<T>, b: seq<T>, before: (T, T) -> bool)
    requires TotalPreorder(before) && Ordered(a, before) && Ordered(b, before) && multiset(a) == multiset(b)
    requires Antisymmetric(a, before)
    ensures a == b
  {
    SameElements(a, b);
    if a != [] {
      FirstIsLeast(a, b[0], before);
      FirstIsLeast(b, a[0], before);
      assert a[0] == b[0];
      TailElements(a);
      TailElements(b);
      OrderedIsUnique(a[1..], b[1..], before);
      assert a == [a[0]] + a[1..] && b == [b[0]] + b[1..];
    }
  }

  /** The order the elements come in makes no difference when no two tie. */
  lemma SortIgnoresOrder<T(!new)>(items: seq<T>, shuffled: seq<T>, before: (T, T) -> bool)
    requires TotalPreorder(before) && multiset(items) == multiset(shuffled) && Antisymmetric(items, before)
    ensures StableSort(items, before) == StableSort(shuffled, before)
  {
    SortOrders(items, before);
    SortOrders(shuffled, before);
    forall a | a in StableSort(items, before) ensures a in items {
      assert a in multiset(StableSort(items, before));
    }
    OrderedIsUnique(StableSort(items, before), StableSort(shuffled, before), before);
  }

  // ----- stability -----

  predicate Tied<T>(a: T, b: T, before: (T, T) -> bool) {
    before(a, b) && before(b, a)
  }

  /** The elements tied with `pivot`, in their order. */
  function TiedWith<T>(items: seq<T>, pivot: T, before: (T, T) -> bool): seq<T> {
    if items == [] then []
    else
      var n := |items| - 1;
      TiedWith(items[..n], pivot, before) + if Tied(items[n], pivot, before) then [items[n]] else []
  }

  lemma TiedWithOneMore<T>(items: seq<T>, x: T, pivot: T, before: (T, T) -> bool)
    ensures TiedWith(items + [x], pivot, before) == TiedWith(items, pivot, before) + if Tied(x, pivot, before) then [x] else []
  {
    assert (items + [x])[..|items|] == items;
  }

  lemma {:induction false} InsertIsStable<T(!new)>(sorted: seq<T>, x: T, pivot: T, before: (T, T) -> bool)
    requires TotalPreorder(before)
    ensures TiedWith(Insert(sorted, x, before), pivot, before) == TiedWith(sorted + [x], pivot, before)
  {
    TiedWithOneMore(sorted, x, pivot, before);
    if sorted != [] && !before(sorted[|sorted| - 1], x) {
      var n := |sorted| - 1;
      InsertIsStable(sorted[..n], x, pivot, before);
      TiedWithOneMore(sorted[..n], x, pivot, before);
      TiedWithOneMore(Insert(sorted[..n], x, before), sorted[n], pivot, before);
    }
  }

  /** Elements tied with each other keep their order. */
  lemma {:induction false} SortIsStable<T(!new)>(items: seq<T>, pivot: T, before: (T, T) -> bool)
    requires TotalPreorder(before)
    ensures TiedWith(StableSort(items, before), pivot, before) == TiedWith(items, pivot, before)
  {
    if items != [] {
      var n := |items| - 1;
      SortIsStable(items[..n], pivot, before);
      var sorted := StableSort(items[..n], before);
      InsertIsStable(sorted, items[n], pivot, before);
      TiedWithOneMore(sorted, items[n], pivot, before);
    }
  }

  // ----- strings -----

  /** a <= b in byte order. */
  predicate StringBefore(a: string, b: string) {
    a == "" || (b != "" && (a[0] < b[0] || (a[0] == b[0] && StringBefore(a[1..], b[1..]))))
  }

  lemma {:induction false} StringBeforeIsTotal(a: string, b: string)
    ensures StringBefore(a, b) || StringBefore(b, a)
    ensures StringBefore(a, b) && StringBefore(b, a) ==> a == b
  {
    if a != "" && b != "" && a[0] == b[0] {
      StringBeforeIsTotal(a[1..], b[1..]);
      assert a == [a[0]] + a[1..] && b == [b[0]] + b[1..];
    }
  }

  lemma {:induction false} StringBeforeIsTransitive(a: string, b: string, c: string)
    requires StringBefore(a, b) && StringBefore(b, c)
    ensures StringBefore(a, c)
  {
    if a != "" && a[0] == b[0] == c[0] {
      StringBeforeIsTransitive(a[1..], b[1..], c[1..]);
    }
  }

  lemma StringOrder()
    ensures TotalPreorder(StringBefore)
  {
    forall a, b ensures StringBefore(a, b) || StringBefore(b, a) {
      StringBeforeIsTotal(a, b);
    }
    forall a, b, c | StringBefore(a, b) && StringBefore(b, c) ensures StringBefore(a, c) {
      StringBeforeIsTransitive(a, b, c);
    }
  }

  /** The first place where two texts differ. */
  predicate DifferFirstAt(a: string, b: string, n: nat) {
    n < |a| && n < |b| && a[..n] == b[..n] && a[n] != b[n]
  }

  lemma DifferLater(a: string, b: string, n: nat)
    requires a != "" && b != "" && a[0] == b[0]
    ensures DifferFirstAt(a, b, n + 1) <==> DifferFirstAt(a[1..], b[1..], n)
    ensures !DifferFirstAt(a, b, 0)
    ensures a <= b <==> a[1..] <= b[1..]
  {
    assert a == [a[0]] + a[1..] && b == [a[0]] + b[1..];
    if n < |a| - 1 && n < |b| - 1 {
      assert a[..n + 1] == [a[0]] + a[1..][..n] && b[..n + 1] == [a[0]] + b[1..][..n];
      assert a[1..][..n] == a[..n + 1][1..] && b[1..][..n] == b[..n + 1][1..];
    }
  }

  lemma DifferAtOnce(a: string, b: string, n: nat)
    requires a != "" && b != "" && a[0] != b[0]
    ensures DifferFirstAt(a, b, n) <==> n == 0
    ensures !(a <= b)
  {
    if 0 < n < |a| && n < |b| {
      assert a[..n][0] != b[..n][0];
    }
  }

  /** The order of bytes: a text comes before those it begins, and otherwise the first place where two differ decides. */
  lemma {:induction false} StringBeforeIsLexicographic(a: string, b: string)
    ensures StringBefore(a, b) <==> a <= b || exists n: nat :: DifferFirstAt(a, b, n) && a[n] < b[n]
  {
    if a != "" && b != "" {
      if a[0] == b[0] {
        StringBeforeIsLexicographic(a[1..], b[1..]);
        DifferLater(a, b, 0);
        if n: nat :| DifferFirstAt(a[1..], b[1..], n) && a[1..][n] < b[1..][n] {
          DifferLater(a, b, n);
          assert DifferFirstAt(a, b, n + 1);
        }
        if n: nat :| DifferFirstAt(a, b, n) && a[n] < b[n] {
          DifferLater(a, b, n - 1);
          assert a[1..][n - 1] == a[n] && b[1..][n - 1] == b[n];
        }
      } else {
        DifferAtOnce(a, b, 0);
        if n: nat :| DifferFirstAt(a, b, n) && a[n] < b[n] {
          DifferAtOnce(a, b, n);
        }
      }
    }
  }
}
