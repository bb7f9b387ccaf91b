/** Largest-remainder apportionment of an amount of paise over flats, by area. */
module Apportionment {
  import opened Numerics
  import opened Wrappers
  import L = Lexicographic
  import S = StableSort

  /** A flat with its computed ideal share, as exact as the computation made it. */
  datatype Claim = Claim(ideal: real, id: string)

  function Base(c: Claim): int {
    Trunc(c.ideal)
  }

  function Remainder(c: Claim): real {
    c.ideal - Base(c) as real
  }

  function CodePoint(c: char): int {
    c as int
  }

  predicate StringLess(a: string, b: string) {
    L.Less(CodePoint, a, b)
  }

  /** The sort key: larger remainder first, then smaller flat id. */
  predicate KeyLess(a: Claim, b: Claim) {
    Remainder(a) > Remainder(b) || (Remainder(a) == Remainder(b) && StringLess(a.id, b.id))
  }

  function Keys(claims: seq<Claim>): S.Comparison {
    (i: nat, j: nat) => i < |claims| && j < |claims| && KeyLess(claims[i], claims[j])
  }

  /** Python's `sorted(range(n), key=...)` on the claims. */
  function Order(claims: seq<Claim>): (order: seq<nat>)
    ensures |order| == |claims| && S.Below(order, |claims|)
  {
    S.SortMembers(Keys(claims), |claims|);
    S.Sort(Keys(claims), |claims|)
  }

  /** How many claims are sorted ahead of claim `i`. */
  function Rank(claims: seq<Claim>, i: nat): nat
    requires i < |claims|
  {
    S.Rank(Keys(claims), |claims|, i)
  }

  function Bases(claims: seq<Claim>): seq<int> {
    seq(|claims|, i requires 0 <= i < |claims| => Base(claims[i]))
  }

  function Ideals(claims: seq<Claim>): seq<real> {
    seq(|claims|, i requires 0 <= i < |claims| => claims[i].ideal)
  }

  function Leftover(amount: int, claims: seq<Claim>): int {
    amount - SumInt(Bases(claims))
  }

  /** One paisa more for each of the `c` claims sorted first. */
  function RaisedFirst(claims: seq<Claim>, c: nat): seq<int> {
    seq(|claims|, i requires 0 <= i < |claims| => Base(claims[i]) + if Rank(claims, i) < c then 1 else 0)
  }

  /** One paisa less for each of the `c` claims sorted last. */
  function LoweredLast(claims: seq<Claim>, c: nat): seq<int> {
    seq(|claims|, i requires 0 <= i < |claims| => Base(claims[i]) - if Rank(claims, i) >= |claims| - c then 1 else 0)
  }

  function Shares(amount: int, claims: seq<Claim>): (shares: seq<int>)
    ensures |shares| == |claims|
  {
    var leftover := Leftover(amount, claims);
    if leftover > 0 then RaisedFirst(claims, leftover)
    else if leftover < 0 then LoweredLast(claims, -leftover)
    else Bases(claims)
  }

  // ----- The sort key is a strict weak order -----

  lemma StringOrder(a: string, b: string, c: string)
    ensures !StringLess(a, a)
    ensures StringLess(a, b) || StringLess(b, a) || a == b
    ensures StringLess(a, b) && StringLess(b, c) ==> StringLess(a, c)
  {
    L.Order(CodePoint, a, b, c);
  }

  lemma KeyOrder(a: Claim, b: Claim, c: Claim)
    ensures !(KeyLess(a, b) && KeyLess(b, a))
    ensures KeyLess(a, b) && KeyLess(b, c) ==> KeyLess(a, c)
    ensures !KeyLess(a, b) && !KeyLess(b, c) ==> !KeyLess(a, c)
  {
    StringOrder(a.id, b.id, a.id);
    StringOrder(b.id, c.id, b.id);
    StringOrder(a.id, b.id, c.id);
    StringOrder(c.id, b.id, a.id);
    StringOrder(a.id, c.id, b.id);
    StringOrder(b.id, a.id, c.id);
  }

  lemma KeysAreOrdered(claims: seq<Claim>)
    ensures S.WeakOrder(Keys(claims), |claims|)
  {
    forall i: nat, j: nat, k: nat | i < |claims| && j < |claims| && k < |claims|
      ensures S.Consistent(Keys(claims), i, j, k)
    {
      KeyOrder(claims[i], claims[j], claims[k]);
    }
  }

  /** The claim at place `k` of the order is the one of rank `k`. */
  lemma OrderIsByRank(claims: seq<Claim>, k: nat)
    requires k < |claims|
    ensures Order(claims)[k] < |claims| && Rank(claims, Order(claims)[k]) == k
  {
    KeysAreOrdered(claims);
    S.PlacesAreRanks(Keys(claims), |claims|, k);
  }

  lemma RankIsPlace(claims: seq<Claim>, i: nat)
    requires i < |claims|
    ensures Rank(claims, i) < |claims| && Order(claims)[Rank(claims, i)] == i
  {
    KeysAreOrdered(claims);
    S.RanksArePlaces(Keys(claims), |claims|, i);
  }

  // ----- The correction loops -----

  lemma RaiseNext(claims: seq<Claim>, c: nat)
    requires c < |claims|
    ensures var i := Order(claims)[c];
            RaisedFirst(claims, c + 1) == RaisedFirst(claims, c)[i := RaisedFirst(claims, c)[i] + 1]
  {
    OrderIsByRank(claims, c);
    forall j: nat | j < |claims| && Rank(claims, j) == c ensures j == Order(claims)[c] {
      RankIsPlace(claims, j);
    }
  }

  lemma LowerNext(claims: seq<Claim>, c: nat)
    requires c < |claims|
    ensures var i := Order(claims)[|claims| - 1 - c];
            LoweredLast(claims, c + 1) == LoweredLast(claims, c)[i := LoweredLast(claims, c)[i] - 1]
  {
    var place := |claims| - 1 - c;
    OrderIsByRank(claims, place);
    forall j: nat | j < |claims| && Rank(claims, j) == place ensures j == Order(claims)[place] {
      RankIsPlace(claims, j);
    }
  }

  lemma NoneRaised(claims: seq<Claim>)
    ensures RaisedFirst(claims, 0) == Bases(claims) == LoweredLast(claims, 0)
  {
    forall i: nat | i < |claims| ensures Rank(claims, i) < |claims| {
      RankIsPlace(claims, i);
    }
  }

  lemma BeyondEveryone(claims: seq<Claim>, c: nat)
    requires c >= |claims|
    ensures RaisedFirst(claims, c) == RaisedFirst(claims, |claims|)
    ensures LoweredLast(claims, c) == LoweredLast(claims, |claims|)
  {
    forall i: nat | i < |claims| ensures Rank(claims, i) < |claims| {
      RankIsPlace(claims, i);
    }
  }

  /** Hands out a positive leftover, a paisa at a time, from the front of the order. */
  method Raise(claims: seq<Claim>, shares: array<int>, initial: nat)
    requires shares[..] == Bases(claims)
    modifies shares
    ensures shares[..] == RaisedFirst(claims, initial)
  {
    var order := Order(claims);
    var leftover, k := initial, 0;
    NoneRaised(claims);
    while k < |order| && leftover > 0
      invariant k <= |order| && leftover == initial - k >= 0
      invariant shares[..] == RaisedFirst(claims, k)
    {
      RaiseNext(claims, k);
      shares[order[k]] := shares[order[k]] + 1;
      leftover := leftover - 1;
      k := k + 1;
    }
    if leftover > 0 {
      BeyondEveryone(claims, initial);
    }
  }

  /** Takes back a surplus, a paisa at a time, from the back of the order. */
  method Lower(claims: seq<Claim>, shares: array<int>, initial: int)
    requires shares[..] == Bases(claims) && initial <= 0
    modifies shares
    ensures shares[..] == LoweredLast(claims, -initial)
  {
    var order := Order(claims);
    var leftover, k := initial, |order| - 1;
    NoneRaised(claims);
    while k >= 0 && leftover < 0
      invariant -1 <= k < |order| && leftover == initial + (|order| - 1 - k) <= 0
      invariant shares[..] == LoweredLast(claims, |order| - 1 - k)
    {
      LowerNext(claims, |order| - 1 - k);
      ghost var before := shares[..];
      shares[order[k]] := shares[order[k]] - 1;
      assert shares[..] == before[order[k] := before[order[k]] - 1];
      leftover := leftover + 1;
      k := k - 1;
    }
    if leftover < 0 {
      BeyondEveryone(claims, -initial);
    }
  }

  /** The in-place correction of the truncated shares, for either sign of the leftover. */
  method LargestRemainder(amount: int, claims: seq<Claim>) returns (result: seq<int>)
    ensures result == Shares(amount, claims)
  {
    var n := |claims|;
    var shares := new int[n](i requires 0 <= i < n => Base(claims[i]));
    assert shares[..] == Bases(claims);
    var leftover := amount - SumInt(shares[..]);
    if leftover > 0 {
      Raise(claims, shares, leftover);
    } else if leftover < 0 {
      Lower(claims, shares, leftover);
    }
    result := shares[..];
  }

  // ----- Apportionment by area -----

  /** Weights without a positive sum are replaced by one for each of the `n` flats. */
  function Weights(weights: seq<real>, n: nat): seq<real> {
    if Sum(weights) <= 0.0 then seq(n, _ => 1.0) else weights
  }

  function IdealOf(amount: real, weight: real, total: real): real
    requires total != 0.0
  {
    amount * weight / total
  }

  function TotalWeight(weights: seq<real>, n: nat): (total: real)
    requires n > 0
    ensures total > 0.0
  {
    if Sum(weights) <= 0.0 then n as real else Sum(weights)
  }

  /** There is a weight for every flat. */
  predicate Weighted(weights: seq<real>, ids: seq<string>) {
    |Weights(weights, |ids|)| >= |ids|
  }

  /** Every flat's exact ideal share of the amount. */
  function ExactClaims(amount: int, weights: seq<real>, ids: seq<string>): (claims: seq<Claim>)
    requires ids != [] && Weighted(weights, ids)
    ensures |claims| == |ids|
  {
    var w, total := Weights(weights, |ids|), TotalWeight(weights, |ids|);
    seq(|ids|, i requires 0 <= i < |ids| => Claim(IdealOf(amount as real, w[i], total), ids[i]))
  }

  /** The whole paise that go to weights beyond the last flat. */
  function ExcessPaise(amount: int, weights: seq<real>, ids: seq<string>): int
    requires ids != [] && Weighted(weights, ids)
  {
    var w, total := Weights(weights, |ids|), TotalWeight(weights, |ids|);
    SumInt(seq(|w| - |ids|, k requires 0 <= k < |w| - |ids| => Trunc(IdealOf(amount as real, w[|ids| + k], total))))
  }

  /** `{ids[i]: shares[i] for i in range(n)}`: a repeated id keeps its last share. */
  function ToMap(ids: seq<string>, shares: seq<int>, n: nat): map<string, int>
    requires n <= |ids| && n <= |shares|
  {
    if n == 0 then map[] else ToMap(ids, shares, n - 1)[ids[n - 1] := shares[n - 1]]
  }

  function Apportioned(amount: int, weights: seq<real>, ids: seq<string>): map<string, int>
    requires |ids| > 1 ==> Weighted(weights, ids)
  {
    if ids == [] then map[]
    else if |ids| == 1 then map[ids[0] := amount]
    else
      ToMap(ids, Shares(amount - ExcessPaise(amount, weights, ids), ExactClaims(amount, weights, ids)), |ids|)
  }

  method MapOf(ids: seq<string>, list: seq<int>) returns (shares: map<string, int>)
    requires |ids| <= |list|
    ensures shares == ToMap(ids, list, |ids|)
  {
    shares := map[];
    for i := 0 to |ids|
      invariant shares == ToMap(ids, list, i)
    {
      shares := shares[ids[i] := list[i]];
    }
  }

  datatype Error = IndexError

  method ApportionByArea(amount: int, weights: seq<real>, ids: seq<string>) returns (r: Result<map<string, int>, Error>)
    ensures r == if |ids| > 1 && !Weighted(weights, ids) then Err(IndexError) else Ok(Apportioned(amount, weights, ids))
  {
    if |ids| == 0 {
      return Ok(map[]);
    }
    if |ids| == 1 {
      return Ok(map[ids[0] := amount]);
    }
    if |Weights(weights, |ids|)| < |ids| {
      return Err(IndexError);
    }
    var list := LargestRemainder(
      amount - ExcessPaise(amount, weights, ids), ExactClaims(amount, weights, ids));
    var shares := MapOf(ids, list);
    r := Ok(shares);
  }
}
