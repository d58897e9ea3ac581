/** Python's `sorted` and the database's ORDER BY: a stable sort by insertion. */
module StableSort {
  /** Puts an item behind those that it does not come before. */
  function Insert<T>(sorted: seq<T>, x: T, before: (T, T) -> bool): seq<T> {
    if sorted == [] || !before(x, sorted[|sorted| - 1]) then sorted + [x]
    else Insert(sorted[..|sorted| - 1], x, before) + [sorted[|sorted| - 1]]
  }

  function Sort<T>(items: seq<T>, before: (T, T) -> bool): seq<T> {
    if items == [] then [] else Insert(Sort(items[..|items| - 1], before), items[|items| - 1], before)
  }

  predicate InOrder<T>(items: seq<T>, before: (T, T) -> bool) {
    forall i, j | 0 <= i < j < |items| :: !before(items[j], items[i])
  }

  /** What a comparison has to be: nothing comes before what comes before it, and incomparable items tie. */
  ghost predicate IsOrder<T(!new)>(before: (T, T) -> bool) {
    && (forall a, b :: before(a, b) ==> !before(b, a))
    && (forall a, b, c :: before(a, c) ==> before(a, b) || before(b, c))
  }

  lemma FrontAndLast<T>(items: seq<T>)
    requires items != []
    ensures multiset(items) == multiset(items[..|items| - 1]) + multiset{items[|items| - 1]}
  {
    assert items == items[..|items| - 1] + [items[|items| - 1]];
  }

  lemma {:induction false} InsertPermutes<T>(sorted: seq<T>, x: T, before: (T, T) -> bool)
    ensures multiset(Insert(sorted, x, before)) == multiset(sorted) + multiset{x}
  {
    if sorted != [] && before(x, sorted[|sorted| - 1]) {
      InsertPermutes(sorted[..|sorted| - 1], x, before);
      FrontAndLast(sorted);
    }
  }

  lemma InsertMembers<T>(sorted: seq<T>, x: T, before: (T, T) -> bool, y: T)
    ensures y in Insert(sorted, x, before) <==> y in sorted || y == x
  {
    InsertPermutes(sorted, x, before);
    assert y in Insert(sorted, x, before) <==> y in multiset(sorted) + multiset{x};
  }

  lemma AppendInOrder<T>(front: seq<T>, last: T, before: (T, T) -> bool)
    requires InOrder(front, before) && forall i | 0 <= i < |front| :: !before(last, front[i])
    ensures InOrder(front + [last], before)
  {
  }

  lemma {:induction false} InsertSorts<T(!new)>(sorted: seq<T>, x: T, before: (T, T) -> bool)
    requires IsOrder(before) && InOrder(sorted, before)
    ensures InOrder(Insert(sorted, x, before), before)
  {
    if sorted != [] {
      var front, last := sorted[..|sorted| - 1], sorted[|sorted| - 1];
      if before(x, last) {
        InsertSorts(front, x, before);
        forall i | 0 <= i < |Insert(front, x, before)|
          ensures !before(last, Insert(front, x, before)[i])
        {
          InsertMembers(front, x, before, Insert(front, x, before)[i]);
        }
        AppendInOrder(Insert(front, x, before), last, before);
      } else {
        forall i | 0 <= i < |sorted|
          ensures !before(x, sorted[i])
        {
          var y := sorted[i];
          assert before(x, y) ==> before(x, last) || before(last, y);
        }
        AppendInOrder(sorted, x, before);
      }
    }
  }

  lemma {:induction false} SortSorts<T(!new)>(items: seq<T>, before: (T, T) -> bool)
    requires IsOrder(before)
    ensures InOrder(Sort(items, before), before)
  {
    if items != [] {
      SortSorts(items[..|items| - 1], before);
      InsertSorts(Sort(items[..|items| - 1], before), items[|items| - 1], before);
    }
  }

  lemma {:induction false} SortPermutes<T>(items: seq<T>, before: (T, T) -> bool)
    ensures multiset(Sort(items, before)) == multiset(items)
  {
    if items != [] {
      var front, last := items[..|items| - 1], items[|items| - 1];
      SortPermutes(front, before);
      InsertPermutes(Sort(front, before), last, before);
      FrontAndLast(items);
    }
  }

  /** Sorting what is in order changes nothing. */
  lemma {:induction false} SortOfSorted<T>(items: seq<T>, before: (T, T) -> bool)
    requires InOrder(items, before)
    ensures Sort(items, before) == items
  {
    if items != [] {
      var front, last := items[..|items| - 1], items[|items| - 1];
      SortOfSorted(front, before);
      if |front| > 0 {
        assert !before(items[|items| - 1], items[|items| - 2]);
      }
      assert items == front + [last];
    }
  }
}
