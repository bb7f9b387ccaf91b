/**
  Python's `sorted(range(n), key=...)`: the positions 0 to n-1 in key order, equal keys in their original
  order.  `less(i, j)` says that the key of position `i` is smaller than that of position `j`.
 */
module StableSort {

  type Comparison = (nat, nat) -> bool

  function Insert(less: Comparison, order: seq<nat>, i: nat): (sorted: seq<nat>)
    ensures |sorted| == |order| + 1
  {
    if order != [] && less(i, order[|order| - 1])
    then Insert(less, order[..|order| - 1], i) + [order[|order| - 1]]
    else order + [i]
  }

  function Sort(less: Comparison, n: nat): (order: seq<nat>)
    ensures |order| == n
  {
    if n == 0 then [] else Insert(less, Sort(less, n - 1), n - 1)
  }

  /** Position `i` is sorted ahead of position `j`. */
  predicate Ahead(less: Comparison, i: nat, j: nat) {
    less(i, j) || (!less(j, i) && i < j)
  }

  predicate Consistent(less: Comparison, i: nat, j: nat, k: nat) {
    !(less(i, j) && less(j, i)) && (!less(i, j) && !less(j, k) ==> !less(i, k))
  }

  /** `less` compares keys: a strict weak order on the positions below `n`. */
  ghost predicate WeakOrder(less: Comparison, n: nat) {
    forall i: nat, j: nat, k: nat :: i < n && j < n && k < n ==> Consistent(less, i, j, k)
  }

  lemma AheadIsTotal(less: Comparison, n: nat, i: nat, j: nat)
    requires WeakOrder(less, n) && i < n && j < n
    ensures !Ahead(less, i, i)
    ensures i != j ==> (Ahead(less, i, j) <==> !Ahead(less, j, i))
  {
    assert Consistent(less, i, i, i) && Consistent(less, i, j, i);
  }

  lemma AheadIsTransitive(less: Comparison, n: nat, i: nat, j: nat, k: nat)
    requires WeakOrder(less, n) && i < n && j < n && k < n
    requires Ahead(less, i, j) && Ahead(less, j, k)
    ensures Ahead(less, i, k)
  {
    assert Consistent(less, i, j, k) && Consistent(less, j, k, i) && Consistent(less, k, j, i);
    assert Consistent(less, i, k, j) && Consistent(less, j, i, k);
  }

  ghost predicate Below(order: seq<nat>, n: nat) {
    forall a :: 0 <= a < |order| ==> order[a] < n
  }

  ghost predicate Sorted(less: Comparison, order: seq<nat>) {
    forall a, b :: 0 <= a < b < |order| ==> Ahead(less, order[a], order[b])
  }

  /** The place that the insertion finds: `i` is less than everything behind it, and not less than what is just before it. */
  lemma {:induction false} InsertPlace(less: Comparison, order: seq<nat>, i: nat) returns (k: nat)
    ensures var sorted := Insert(less, order, i);
            && k <= |order| && sorted[k] == i
            && (forall a :: 0 <= a < k ==> sorted[a] == order[a])
            && (forall a :: k <= a < |order| ==> sorted[a + 1] == order[a])
            && (forall a :: k <= a < |order| ==> less(i, order[a]))
            && (k > 0 ==> !less(i, order[k - 1]))
  {
    k := |order|;
    if order != [] && less(i, order[|order| - 1]) {
      k := InsertPlace(less, order[..|order| - 1], i);
    }
  }

  lemma InsertMembers(less: Comparison, order: seq<nat>, i: nat)
    ensures forall j: nat :: j in Insert(less, order, i) <==> j in order || j == i
  {
    var k := InsertPlace(less, order, i);
    var sorted := Insert(less, order, i);
    forall a | 0 <= a < |sorted| ensures sorted[a] == i || sorted[a] in order {
      assert a > k ==> sorted[a] == order[a - 1];
    }
    forall a | 0 <= a < |order| ensures order[a] in sorted {
      assert order[a] == if a < k then sorted[a] else sorted[a + 1];
    }
  }

  lemma InsertSorts(less: Comparison, order: seq<nat>, i: nat)
    requires WeakOrder(less, i + 1) && Below(order, i) && Sorted(less, order)
    ensures Sorted(less, Insert(less, order, i))
  {
    var k := InsertPlace(less, order, i);
    var sorted := Insert(less, order, i);
    forall a | 0 <= a < k ensures Ahead(less, order[a], i) {
      assert Ahead(less, order[k - 1], i);
      if a < k - 1 {
        AheadIsTransitive(less, i + 1, order[a], order[k - 1], i);
      }
    }
    forall a, b | 0 <= a < b < |sorted| ensures Ahead(less, sorted[a], sorted[b]) {
      if b == k {
        assert sorted[a] == order[a];
      } else if a == k {
        assert sorted[b] == order[b - 1];
      } else {
        var a', b' := if a < k then a else a - 1, if b < k then b else b - 1;
        assert sorted[a] == order[a'] && sorted[b] == order[b'];
      }
    }
  }

  /** Whatever the comparison, sorting lists exactly the positions. */
  lemma {:induction false} SortMembers(less: Comparison, n: nat)
    ensures forall j: nat :: j in Sort(less, n) <==> j < n
    ensures Below(Sort(less, n), n)
  {
    if n > 0 {
      SortMembers(less, n - 1);
      InsertMembers(less, Sort(less, n - 1), n - 1);
    }
    var order := Sort(less, n);
    forall a | 0 <= a < |order| ensures order[a] < n {
      assert order[a] in order;
    }
  }

  /** With a weak order, it lists them in order, and so each once. */
  lemma {:induction false} SortSorts(less: Comparison, n: nat)
    requires WeakOrder(less, n)
    ensures Sorted(less, Sort(less, n))
  {
    if n > 0 {
      assert WeakOrder(less, n - 1);
      SortSorts(less, n - 1);
      SortMembers(less, n - 1);
      InsertSorts(less, Sort(less, n - 1), n - 1);
    }
  }

  lemma PlaceOf(order: seq<nat>, i: nat) returns (k: nat)
    requires i in order
    ensures k < |order| && order[k] == i
  {
    k :| 0 <= k < |order| && order[k] == i;
  }

  // ----- Sums over the sorted positions -----

  function SumOver(order: seq<nat>, f: nat -> real): real {
    if order == [] then 0.0 else SumOver(order[..|order| - 1], f) + f(order[|order| - 1])
  }

  function SumBelow(n: nat, f: nat -> real): real {
    if n == 0 then 0.0 else SumBelow(n - 1, f) + f(n - 1)
  }

  lemma {:induction false} InsertSum(less: Comparison, order: seq<nat>, i: nat, f: nat -> real)
    ensures SumOver(Insert(less, order, i), f) == SumOver(order, f) + f(i)
  {
    var sorted := Insert(less, order, i);
    if order != [] && less(i, order[|order| - 1]) {
      InsertSum(less, order[..|order| - 1], i, f);
      assert sorted[..|sorted| - 1] == Insert(less, order[..|order| - 1], i);
    } else {
      assert sorted[..|order|] == order;
    }
  }

  lemma {:induction false} SortSum(less: Comparison, n: nat, f: nat -> real)
    ensures SumOver(Sort(less, n), f) == SumBelow(n, f)
  {
    if n > 0 {
      SortSum(less, n - 1, f);
      InsertSum(less, Sort(less, n - 1), n - 1, f);
    }
  }

  // ----- Ranks -----

  /** How many of the first `n` positions are sorted ahead of `x`. */
  function Rank(less: Comparison, n: nat, x: nat): (rank: nat)
    ensures rank <= n
  {
    if n == 0 then 0 else Rank(less, n - 1, x) + if Ahead(less, n - 1, x) then 1 else 0
  }

  function ListedAhead(less: Comparison, order: seq<nat>, x: nat): nat {
    if order == [] then 0
    else ListedAhead(less, order[..|order| - 1], x) + if Ahead(less, order[|order| - 1], x) then 1 else 0
  }

  lemma {:induction false} InsertCount(less: Comparison, order: seq<nat>, i: nat, x: nat)
    ensures ListedAhead(less, Insert(less, order, i), x)
         == ListedAhead(less, order, x) + if Ahead(less, i, x) then 1 else 0
  {
    var sorted := Insert(less, order, i);
    if order != [] && less(i, order[|order| - 1]) {
      InsertCount(less, order[..|order| - 1], i, x);
      assert sorted[..|sorted| - 1] == Insert(less, order[..|order| - 1], i);
    } else {
      assert sorted[..|order|] == order;
    }
  }

  lemma {:induction false} SortCount(less: Comparison, n: nat, x: nat)
    ensures ListedAhead(less, Sort(less, n), x) == Rank(less, n, x)
  {
    if n > 0 {
      SortCount(less, n - 1, x);
      InsertCount(less, Sort(less, n - 1), n - 1, x);
    }
  }

  lemma {:induction false} SortedCount(less: Comparison, n: nat, order: seq<nat>, k: nat, m: nat)
    requires WeakOrder(less, n) && Below(order, n) && Sorted(less, order) && k < |order| && m <= |order|
    ensures ListedAhead(less, order[..m], order[k]) == if m <= k then m else k
  {
    if m > 0 {
      SortedCount(less, n, order, k, m - 1);
      assert order[..m][..m - 1] == order[..m - 1];
      AheadIsTotal(less, n, order[m - 1], order[k]);
      assert m - 1 < k ==> Ahead(less, order[m - 1], order[k]);
      assert k < m - 1 ==> Ahead(less, order[k], order[m - 1]);
    }
  }

  /** The position at place `k` has rank `k`. */
  lemma PlacesAreRanks(less: Comparison, n: nat, k: nat)
    requires WeakOrder(less, n) && k < n
    ensures Sort(less, n)[k] < n && Rank(less, n, Sort(less, n)[k]) == k
  {
    var order := Sort(less, n);
    SortMembers(less, n);
    SortSorts(less, n);
    SortedCount(less, n, order, k, n);
    assert order[..n] == order;
    SortCount(less, n, order[k]);
  }

  /** Ranks are places: each from 0 to n-1 is taken once. */
  lemma RanksArePlaces(less: Comparison, n: nat, x: nat)
    requires WeakOrder(less, n) && x < n
    ensures Rank(less, n, x) < n && Sort(less, n)[Rank(less, n, x)] == x
  {
    SortMembers(less, n);
    var k := PlaceOf(Sort(less, n), x);
    PlacesAreRanks(less, n, k);
  }

  lemma {:induction false} RankMonotone(less: Comparison, n: nat, m: nat, i: nat, j: nat)
    requires WeakOrder(less, n) && m <= n && i < n && j < n && Ahead(less, i, j)
    ensures Rank(less, m, i) <= Rank(less, m, j)
  {
    if m > 0 {
      RankMonotone(less, n, m - 1, i, j);
      if Ahead(less, m - 1, i) {
        AheadIsTransitive(less, n, m - 1, i, j);
      }
    }
  }
}
