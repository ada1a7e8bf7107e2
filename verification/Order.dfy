/** Sorting, as `sort_unstable` supplies it to the median and the percentile. */
module Order {

  ghost predicate Sorted(s: seq<int>) {
    forall i, j :: 0 <= i <= j < |s| ==> s[i] <= s[j]
  }

  lemma SortedCons(x: int, s: seq<int>)
    requires Sorted(s) && (s != [] ==> x <= s[0])
    ensures Sorted([x] + s)
  {
  }

  function Insert(x: int, s: seq<int>): (r: seq<int>)
    requires Sorted(s)
    ensures Sorted(r)
    ensures |r| == |s| + 1
    ensures r[0] == if s == [] || x <= s[0] then x else s[0]
  {
    if s == [] then [x]
    else if x <= s[0] then
      SortedCons(x, s);
      [x] + s
    else
      var rest := Insert(x, s[1..]);
      SortedCons(s[0], rest);
      [s[0]] + rest
  }

  lemma {:induction false} InsertKeeps(x: int, s: seq<int>)
    requires Sorted(s)
    ensures multiset(Insert(x, s)) == multiset(s) + multiset{x}
  {
    if s != [] && x > s[0] {
      InsertKeeps(x, s[1..]);
      assert s == [s[0]] + s[1..];
    }
  }

  /** The sorted rearrangement of a sequence. */
  function Sort(s: seq<int>): (r: seq<int>)
    ensures Sorted(r)
    ensures multiset(r) == multiset(s)
    ensures |r| == |s|
  {
    if s == [] then []
    else
      assert s == [s[0]] + s[1..];
      InsertKeeps(s[0], Sort(s[1..]));
      Insert(s[0], Sort(s[1..]))
  }

  /** Sorting neither invents nor loses an element. */
  lemma SortKeepsMembers(s: seq<int>, x: int)
    ensures x in Sort(s) <==> x in s
  {
    assert x in Sort(s) <==> x in multiset(Sort(s));
    assert x in s <==> x in multiset(s);
  }

  function Maximum(s: seq<int>): (m: int)
    requires s != []
    ensures m in s
    ensures forall x :: x in s ==> x <= m
  {
    if |s| == 1 then s[0]
    else
      var rest := Maximum(s[1..]);
      assert s == [s[0]] + s[1..];
      if s[0] >= rest then s[0] else rest
  }

  function Minimum(s: seq<int>): (m: int)
    requires s != []
    ensures m in s
    ensures forall x :: x in s ==> m <= x
  {
    if |s| == 1 then s[0]
    else
      var rest := Minimum(s[1..]);
      assert s == [s[0]] + s[1..];
      if s[0] <= rest then s[0] else rest
  }

  // ---------------------------------------------------------------- order statistics

  function CountAtMost(s: seq<int>, v: int): (n: nat)
    ensures n <= |s|
  {
    if s == [] then 0 else (if s[0] <= v then 1 else 0) + CountAtMost(s[1..], v)
  }

  lemma {:induction false} CountInserted(x: int, s: seq<int>, v: int)
    requires Sorted(s)
    ensures CountAtMost(Insert(x, s), v) == CountAtMost(s, v) + (if x <= v then 1 else 0)
  {
    if s == [] || x <= s[0] {
      assert ([x] + s)[1..] == s;
    } else {
      CountInserted(x, s[1..], v);
      assert ([s[0]] + Insert(x, s[1..]))[1..] == Insert(x, s[1..]);
    }
  }

  lemma {:induction false} CountSorted(s: seq<int>, v: int)
    ensures CountAtMost(Sort(s), v) == CountAtMost(s, v)
  {
    if s != [] {
      CountSorted(s[1..], v);
      CountInserted(s[0], Sort(s[1..]), v);
    }
  }

  lemma {:induction false} CountLow(s: seq<int>, v: int, k: nat)
    requires k <= |s| && forall i :: 0 <= i < k ==> s[i] <= v
    ensures CountAtMost(s, v) >= k
    decreases k
  {
    if k > 0 {
      CountLow(s[1..], v, k - 1);
    }
  }

  lemma {:induction false} CountHigh(s: seq<int>, v: int, k: nat)
    requires k <= |s| && forall i :: k <= i < |s| ==> s[i] > v
    ensures CountAtMost(s, v) <= k
    decreases |s|
  {
    if s != [] {
      CountHigh(s[1..], v, if k > 0 then k - 1 else 0);
    }
  }

  /** In sorted order, at least k+1 values do not exceed the one at index k, and at most k are below it. */
  lemma SortedCounts(sorted: seq<int>, k: nat)
    requires Sorted(sorted) && k < |sorted|
    ensures CountAtMost(sorted, sorted[k]) >= k + 1 && CountAtMost(sorted, sorted[k] - 1) <= k
  {
    CountLow(sorted, sorted[k], k + 1);
    CountHigh(sorted, sorted[k] - 1, k);
  }

  lemma {:induction false} CountMonotone(s: seq<int>, low: int, high: int)
    requires low <= high
    ensures CountAtMost(s, low) <= CountAtMost(s, high)
  {
    if s != [] {
      CountMonotone(s[1..], low, high);
    }
  }
}
