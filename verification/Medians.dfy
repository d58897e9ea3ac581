/** Medians, as `statistics.median` and the dashboard's own `_median` compute them. */
module Medians {
  import opened Common
  import opened StableSort

  predicate Less(a: nat, b: nat) {
    a < b
  }

  function Sorted(values: seq<nat>): seq<nat> {
    Sort(values, Less)
  }

  /** The middle value, or the mean of the two in the middle. */
  function Middle(s: seq<nat>): real
    requires |s| > 0
  {
    if |s| % 2 == 1 then s[|s| / 2] as real else (s[|s| / 2 - 1] + s[|s| / 2]) as real / 2.0
  }

  function Median(values: seq<nat>): Option<real> {
    if |Sorted(values)| == 0 then None else Some(Middle(Sorted(values)))
  }

  predicate IsSorted(s: seq<nat>) {
    forall i, j | 0 <= i < j < |s| :: s[i] <= s[j]
  }

  lemma SortedSorts(values: seq<nat>)
    ensures IsSorted(Sorted(values)) && |Sorted(values)| == |values|
  {
    SortSorts(values, Less);
    SortPermutes(values, Less);
    assert |Sorted(values)| == |multiset(Sorted(values))| == |multiset(values)|;
    assert forall i, j | 0 <= i < j < |Sorted(values)| :: !Less(Sorted(values)[j], Sorted(values)[i]);
  }

  /** How many of the values are at most, and at least, a bound. */
  function AtMost(values: seq<nat>, bound: real): nat {
    if values == [] then 0
    else AtMost(values[..|values| - 1], bound) + if values[|values| - 1] as real <= bound then 1 else 0
  }

  function AtLeast(values: seq<nat>, bound: real): nat {
    if values == [] then 0
    else AtLeast(values[..|values| - 1], bound) + if values[|values| - 1] as real >= bound then 1 else 0
  }

  lemma {:induction false} InsertCounts(sorted: seq<nat>, x: nat, bound: real)
    ensures AtMost(Insert(sorted, x, Less), bound) == AtMost(sorted, bound) + if x as real <= bound then 1 else 0
    ensures AtLeast(Insert(sorted, x, Less), bound) == AtLeast(sorted, bound) + if x as real >= bound then 1 else 0
  {
    if sorted == [] || !Less(x, sorted[|sorted| - 1]) {
      assert (sorted + [x])[..|sorted|] == sorted;
    } else {
      var front, last := sorted[..|sorted| - 1], sorted[|sorted| - 1];
      InsertCounts(front, x, bound);
      assert (Insert(front, x, Less) + [last])[..|Insert(front, x, Less)|] == Insert(front, x, Less);
    }
  }

  lemma {:induction false} SortedCounts(values: seq<nat>, bound: real)
    ensures AtMost(Sorted(values), bound) == AtMost(values, bound)
    ensures AtLeast(Sorted(values), bound) == AtLeast(values, bound)
  {
    if values != [] {
      SortedCounts(values[..|values| - 1], bound);
      InsertCounts(Sorted(values[..|values| - 1]), values[|values| - 1], bound);
    }
  }

  /** In sorted values, everything before position k is at most it and everything from it on at least. */
  lemma {:induction false} CountsAround(s: seq<nat>, k: nat, bound: real)
    requires IsSorted(s) && k <= |s|
    ensures (k > 0 ==> s[k - 1] as real <= bound) ==> AtMost(s, bound) >= k
    ensures (k < |s| ==> s[k] as real >= bound) ==> AtLeast(s, bound) >= |s| - k
    decreases |s|
  {
    if |s| > 0 {
      var front := s[..|s| - 1];
      if k < |s| {
        CountsAround(front, k, bound);
      } else {
        CountsAround(front, k - 1, bound);
      }
    }
  }

  lemma HalfAtMost(s: seq<nat>, m: real)
    requires IsSorted(s) && s != [] && s[(|s| - 1) / 2] as real <= m
    ensures 2 * AtMost(s, m) >= |s|
  {
    CountsAround(s, (|s| - 1) / 2 + 1, m);
  }

  lemma HalfAtLeast(s: seq<nat>, m: real)
    requires IsSorted(s) && s != [] && s[|s| / 2] as real >= m
    ensures 2 * AtLeast(s, m) >= |s|
  {
    CountsAround(s, |s| / 2, m);
  }

  lemma MiddleSplits(s: seq<nat>)
    requires IsSorted(s) && s != []
    ensures 2 * AtMost(s, Middle(s)) >= |s| && 2 * AtLeast(s, Middle(s)) >= |s|
  {
    assert s[(|s| - 1) / 2] as real <= Middle(s) <= s[|s| / 2] as real;
    HalfAtMost(s, Middle(s));
    HalfAtLeast(s, Middle(s));
  }

  /** At least half of the values are on either side of the median, whatever order they come in. */
  lemma MedianIsInTheMiddle(values: seq<nat>)
    requires |values| > 0
    ensures Median(values).Some?
    ensures 2 * AtMost(values, Median(values).value) >= |values|
    ensures 2 * AtLeast(values, Median(values).value) >= |values|
  {
    SortedSorts(values);
    MiddleSplits(Sorted(values));
    SortedCounts(values, Middle(Sorted(values)));
  }
}
