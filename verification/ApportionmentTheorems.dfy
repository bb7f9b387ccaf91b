/** What largest-remainder apportionment guarantees: exact sums, quota, monotonicity and optimality. */
module ApportionmentTheorems {
  import opened Numerics
  import opened Apportionment
  import S = StableSort

  // ----- Exact sums -----

  lemma {:induction false} SumIntUpdate(xs: seq<int>, i: nat, x: int)
    requires i < |xs|
    ensures SumInt(xs[i := x]) == SumInt(xs) - xs[i] + x
  {
    var n := |xs| - 1;
    if i == n {
      assert xs[i := x][..n] == xs[..n];
    } else {
      assert xs[i := x][..n] == xs[..n][i := x];
      SumIntUpdate(xs[..n], i, x);
    }
  }

  lemma {:induction false} RaisedSum(claims: seq<Claim>, c: nat)
    requires c <= |claims|
    ensures SumInt(RaisedFirst(claims, c)) == SumInt(Bases(claims)) + c
  {
    if c == 0 {
      NoneRaised(claims);
    } else {
      RaisedSum(claims, c - 1);
      RaiseNext(claims, c - 1);
      var i := Order(claims)[c - 1];
      SumIntUpdate(RaisedFirst(claims, c - 1), i, RaisedFirst(claims, c - 1)[i] + 1);
    }
  }

  lemma {:induction false} LoweredSum(claims: seq<Claim>, c: nat)
    requires c <= |claims|
    ensures SumInt(LoweredLast(claims, c)) == SumInt(Bases(claims)) - c
  {
    if c == 0 {
      NoneRaised(claims);
    } else {
      LoweredSum(claims, c - 1);
      LowerNext(claims, c - 1);
      var i := Order(claims)[|claims| - c];
      SumIntUpdate(LoweredLast(claims, c - 1), i, LoweredLast(claims, c - 1)[i] - 1);
    }
  }

  /** A share is truncated where flooring is documented: the same unless the ideal is negative and not whole. */
  lemma TruncationIsFlooringIff(c: Claim)
    ensures Base(c) == c.ideal.Floor <==> c.ideal >= 0.0 || c.ideal.Floor as real == c.ideal
    ensures Base(c) == c.ideal.Floor + if c.ideal >= 0.0 || c.ideal.Floor as real == c.ideal then 0 else 1
  {
  }

  /** Taking back one paisa from two equal flats: both ideals are truncated up to zero, not floored to minus one. */
  lemma NegativeIdealsAreNotFloored()
    ensures var claims := ExactClaims(-1, [1.0, 1.0], ["a", "b"]);
            && claims[0].ideal == -0.5 && Base(claims[0]) == 0 && claims[0].ideal.Floor == -1
            && Leftover(-1, claims) == -1
  {
    var claims := ExactClaims(-1, [1.0, 1.0], ["a", "b"]);
    assert [1.0, 1.0][..1] == [1.0] && [1.0][..0] == [];
    assert Sum([1.0, 1.0]) == Sum([1.0]) + 1.0 && Sum([1.0]) == Sum([]) + 1.0;
    var bases := Bases(claims);
    assert bases == [0, 0] && bases[..1] == [0] && bases[..1][..0] == [];
    assert SumInt(bases) == SumInt(bases[..1]) && SumInt(bases[..1]) == SumInt([]);
  }

  /** The shares sum to the amount exactly when one pass over the claims can absorb the leftover. */
  lemma SharesSumIff(amount: int, claims: seq<Claim>)
    ensures SumInt(Shares(amount, claims)) == amount <==> -|claims| <= Leftover(amount, claims) <= |claims|
  {
    var leftover := Leftover(amount, claims);
    if leftover > 0 {
      if leftover > |claims| {
        BeyondEveryone(claims, leftover);
        RaisedSum(claims, |claims|);
      } else {
        RaisedSum(claims, leftover);
      }
    } else if leftover < 0 {
      if -leftover > |claims| {
        BeyondEveryone(claims, -leftover);
        LoweredSum(claims, |claims|);
      } else {
        LoweredSum(claims, -leftover);
      }
    }
  }

  lemma {:induction false} RemaindersBound(claims: seq<Claim>)
    ensures Abs(Sum(Ideals(claims)) - SumInt(Bases(claims)) as real) <= |claims| as real
    ensures claims != [] ==> Abs(Sum(Ideals(claims)) - SumInt(Bases(claims)) as real) < |claims| as real
  {
    if claims != [] {
      var n := |claims| - 1;
      assert Ideals(claims)[..n] == Ideals(claims[..n]) && Bases(claims)[..n] == Bases(claims[..n]);
      RemaindersBound(claims[..n]);
      assert Abs(Remainder(claims[n])) < 1.0;
    }
  }

  /**
    Exact conservation, for amounts of either sign: the ideal shares may be off, as floating point leaves
    them, as long as they sum to within one paisa of the amount.
   */
  lemma PerturbedSharesStillSum(amount: int, claims: seq<Claim>)
    requires claims != [] && Abs(Sum(Ideals(claims)) - amount as real) <= 1.0
    ensures SumInt(Shares(amount, claims)) == amount
  {
    RemaindersBound(claims);
    SharesSumIff(amount, claims);
  }

  // ----- Exact ideal shares -----

  lemma {:induction false} SumScaled(xs: seq<real>, ys: seq<real>, k: real)
    requires |xs| == |ys| && forall i :: 0 <= i < |xs| ==> ys[i] == k * xs[i]
    ensures Sum(ys) == k * Sum(xs)
  {
    if xs != [] {
      var n := |xs| - 1;
      SumScaled(xs[..n], ys[..n], k);
      assert k * (Sum(xs[..n]) + xs[n]) == k * Sum(xs[..n]) + k * xs[n];
    }
  }

  lemma {:induction false} SumOfOnes(n: nat)
    ensures Sum(seq(n, _ => 1.0)) == n as real
  {
    if n > 0 {
      assert seq(n, _ => 1.0)[..n - 1] == seq(n - 1, _ => 1.0);
      SumOfOnes(n - 1);
    }
  }

  lemma TotalIsSum(weights: seq<real>, n: nat)
    requires n > 0
    ensures Sum(Weights(weights, n)) == TotalWeight(weights, n)
  {
    SumOfOnes(n);
  }

  lemma ScaleIdeal(a: real, w: real, t: real)
    requires t > 0.0
    ensures IdealOf(a, w, t) == (a / t) * w
  {
    assert (a / t) * w * t == (a / t) * t * w;
    assert (a / t) * t == a;
  }

  lemma IdealIsScaled(amount: int, weights: seq<real>, ids: seq<string>, i: nat, k: real)
    requires Weighted(weights, ids) && i < |ids| && k == amount as real / TotalWeight(weights, |ids|)
    ensures Ideals(ExactClaims(amount, weights, ids))[i] == k * Weights(weights, |ids|)[i]
  {
    ExactIdeal(amount, weights, ids, i);
    ScaleIdeal(amount as real, Weights(weights, |ids|)[i], TotalWeight(weights, |ids|));
  }

  lemma QuotientTimes(a: real, t: real, k: real)
    requires t > 0.0 && k == a / t
    ensures k * t == a
  {
  }

  /** The exact ideal shares of a non-empty apportionment sum to the amount. */
  lemma ExactIdealsSum(amount: int, weights: seq<real>, ids: seq<string>)
    requires |weights| == |ids| && ids != []
    ensures Sum(Ideals(ExactClaims(amount, weights, ids))) == amount as real
  {
    var total := TotalWeight(weights, |ids|);
    var k := amount as real / total;
    forall i: nat | i < |ids| ensures Ideals(ExactClaims(amount, weights, ids))[i] == k * Weights(weights, |ids|)[i] {
      IdealIsScaled(amount, weights, ids, i, k);
    }
    SumScaled(Weights(weights, |ids|), Ideals(ExactClaims(amount, weights, ids)), k);
    TotalIsSum(weights, |ids|);
    QuotientTimes(amount as real, total, k);
  }

  // ----- Quota -----

  /** The part of the remainders that lies above zero, and how many there are. */
  function Positives(claims: seq<Claim>): nat {
    if claims == [] then 0
    else Positives(claims[..|claims| - 1]) + if Remainder(claims[|claims| - 1]) > 0.0 then 1 else 0
  }

  function Negatives(claims: seq<Claim>): nat {
    if claims == [] then 0
    else Negatives(claims[..|claims| - 1]) + if Remainder(claims[|claims| - 1]) < 0.0 then 1 else 0
  }

  lemma {:induction false} LeftoverBelowPositives(claims: seq<Claim>)
    ensures var gap := Sum(Ideals(claims)) - SumInt(Bases(claims)) as real;
            && gap <= Positives(claims) as real && -gap <= Negatives(claims) as real
            && (gap > 0.0 ==> gap < Positives(claims) as real)
            && (gap < 0.0 ==> -gap < Negatives(claims) as real)
  {
    if claims != [] {
      var n := |claims| - 1;
      assert Ideals(claims)[..n] == Ideals(claims[..n]) && Bases(claims)[..n] == Bases(claims[..n]);
      LeftoverBelowPositives(claims[..n]);
      assert Abs(Remainder(claims[n])) < 1.0;
    }
  }

  /** Positive remainders are sorted ahead of a claim without one; negative ones behind a claim without one. */
  lemma {:induction false} PositivesAhead(claims: seq<Claim>, n: nat, i: nat)
    requires n <= |claims| && i < |claims|
    ensures Remainder(claims[i]) <= 0.0 ==> Positives(claims[..n]) <= S.Rank(Keys(claims), n, i)
    ensures Remainder(claims[i]) >= 0.0 && n <= i ==> S.Rank(Keys(claims), n, i) + Negatives(claims[..n]) <= n
    ensures Remainder(claims[i]) >= 0.0 && n > i ==> S.Rank(Keys(claims), n, i) + Negatives(claims[..n]) <= n - 1
  {
    if n > 0 {
      PositivesAhead(claims, n - 1, i);
      assert claims[..n][..n - 1] == claims[..n - 1];
      KeysAreOrdered(claims);
      S.AheadIsTotal(Keys(claims), |claims|, n - 1, i);
    }
  }

  /** Quota: with exact ideals, every share is strictly within one paisa of its ideal, whatever the sign of the weights. */
  lemma QuotaHolds(amount: int, claims: seq<Claim>, i: nat)
    requires i < |claims| && Sum(Ideals(claims)) == amount as real
    ensures Abs(Shares(amount, claims)[i] as real - claims[i].ideal) < 1.0
  {
    LeftoverBelowPositives(claims);
    PositivesAhead(claims, |claims|, i);
    assert claims[..|claims|] == claims;
    assert Abs(Remainder(claims[i])) < 1.0;
    assert Leftover(amount, claims) as real == Sum(Ideals(claims)) - SumInt(Bases(claims)) as real;
  }

  // ----- Monotonicity -----

  lemma TruncMonotone(x: real, y: real)
    requires x <= y
    ensures Trunc(x) <= Trunc(y)
  {
  }

  /** A larger ideal never gets a smaller share, and equal ideals differ by at most one paisa. */
  lemma LargerIdealLargerShare(amount: int, claims: seq<Claim>, i: nat, j: nat)
    requires i < |claims| && j < |claims|
    ensures claims[i].ideal > claims[j].ideal ==> Shares(amount, claims)[i] >= Shares(amount, claims)[j]
    ensures claims[i].ideal == claims[j].ideal ==> -1 <= Shares(amount, claims)[i] - Shares(amount, claims)[j] <= 1
  {
    if claims[i].ideal > claims[j].ideal {
      TruncMonotone(claims[j].ideal, claims[i].ideal);
      if Base(claims[i]) == Base(claims[j]) {
        KeysAreOrdered(claims);
        assert S.Ahead(Keys(claims), i, j);
        S.RankMonotone(Keys(claims), |claims|, |claims|, i, j);
      }
    }
  }

  /** Of two flats, the one with more area never pays less of a bill, nor receives less of a refund. */
  lemma LargerWeightLargerShare(amount: int, weights: seq<real>, ids: seq<string>, i: nat, j: nat)
    requires |weights| == |ids| && i < |ids| && j < |ids|
    requires Sum(weights) > 0.0 && weights[i] > weights[j]
    ensures var shares := Shares(amount, ExactClaims(amount, weights, ids));
            if amount >= 0 then shares[i] >= shares[j] else shares[i] <= shares[j]
  {
    var claims := ExactClaims(amount, weights, ids);
    ExactIdeal(amount, weights, ids, i);
    ExactIdeal(amount, weights, ids, j);
    IdealsOrdered(amount as real, weights[i], weights[j], Sum(weights));
    IdealOfNothing(weights[i], Sum(weights));
    LargerIdealLargerShare(amount, claims, i, j);
    LargerIdealLargerShare(amount, claims, j, i);
    if amount == 0 {
      forall k: nat | k < |claims| ensures claims[k].ideal == 0.0 {
        ExactIdeal(amount, weights, ids, k);
        IdealOfNothing(weights[k], Sum(weights));
      }
      NothingToShare(claims);
    }
  }

  lemma ExactIdeal(amount: int, weights: seq<real>, ids: seq<string>, i: nat)
    requires Weighted(weights, ids) && i < |ids|
    ensures ExactClaims(amount, weights, ids)[i].ideal
         == IdealOf(amount as real, Weights(weights, |ids|)[i], TotalWeight(weights, |ids|))
  {
  }

  lemma IdealOfNothing(w: real, total: real)
    requires total > 0.0
    ensures IdealOf(0.0, w, total) == 0.0
  {
  }

  lemma IdealsOrdered(a: real, v: real, w: real, total: real)
    requires total > 0.0 && v > w
    ensures a > 0.0 ==> IdealOf(a, v, total) > IdealOf(a, w, total)
    ensures a < 0.0 ==> IdealOf(a, v, total) < IdealOf(a, w, total)
  {
    ScaleIdeal(a, v, total);
    ScaleIdeal(a, w, total);
    var k := a / total;
    assert k * total == a;
    FactorSign(k, total);
    FactorSign(k, v - w);
    assert k * (v - w) == k * v - k * w;
  }

  lemma FactorSign(k: real, b: real)
    requires b > 0.0
    ensures k > 0.0 <==> k * b > 0.0
    ensures k < 0.0 <==> k * b < 0.0
  {
  }

  /** When every ideal is zero, so is every share. */
  lemma NothingToShare(claims: seq<Claim>)
    requires forall k :: 0 <= k < |claims| ==> claims[k].ideal == 0.0
    ensures forall k :: 0 <= k < |claims| ==> Shares(0, claims)[k] == 0
  {
    AllZero(Bases(claims));
  }

  lemma {:induction false} AllZero(xs: seq<int>)
    requires forall k :: 0 <= k < |xs| ==> xs[k] == 0
    ensures SumInt(xs) == 0
  {
    if xs != [] {
      AllZero(xs[..|xs| - 1]);
    }
  }

  // ----- Optimality -----

  /** The total absolute deviation of the first `n` shares of an allocation from their ideals. */
  function DeviationUpTo(allocation: seq<int>, claims: seq<Claim>, n: nat): real
    requires |allocation| == |claims| && n <= |claims|
  {
    if n == 0 then 0.0
    else DeviationUpTo(allocation, claims, n - 1) + Abs(allocation[n - 1] as real - claims[n - 1].ideal)
  }

  function Deviation(allocation: seq<int>, claims: seq<Claim>): real
    requires |allocation| == |claims|
  {
    DeviationUpTo(allocation, claims, |claims|)
  }

  predicate AddsUp(tilt: int -> real, a: int, b: int) {
    tilt(a + b) == tilt(a) + tilt(b)
  }

  predicate Shallow(tilt: int -> real, k: int) {
    Abs(tilt(k)) <= Abs(k as real)
  }

  /** A cost of `slope` per paisa moved, between -1 and 1. */
  ghost predicate Tilts(tilt: int -> real, slope: real) {
    tilt(0) == 0.0 && tilt(1) == slope && (forall a, b :: AddsUp(tilt, a, b)) && forall k :: Shallow(tilt, k)
  }

  /** Claim by claim, moving `k` paise away from the share costs at least `tilt(k)`. */
  ghost predicate Supported(allocation: seq<int>, shares: seq<int>, claims: seq<Claim>, tilt: int -> real)
    requires |allocation| == |shares| == |claims|
  {
    forall i :: 0 <= i < |claims| ==>
      Abs(shares[i] as real - claims[i].ideal) + tilt(allocation[i] - shares[i])
      <= Abs(allocation[i] as real - claims[i].ideal)
  }

  lemma {:induction false} SupportedDeviation(
      allocation: seq<int>, shares: seq<int>, claims: seq<Claim>, tilt: int -> real, n: nat)
    requires |allocation| == |shares| == |claims| && n <= |claims|
    requires Supported(allocation, shares, claims, tilt) && Tilts(tilt, tilt(1))
    ensures DeviationUpTo(shares, claims, n) + tilt(SumInt(allocation[..n]) - SumInt(shares[..n]))
         <= DeviationUpTo(allocation, claims, n)
  {
    if n > 0 {
      var i := n - 1;
      SupportedDeviation(allocation, shares, claims, tilt, i);
      SumIntPrefix(allocation, i);
      SumIntPrefix(shares, i);
      var before, here := SumInt(allocation[..i]) - SumInt(shares[..i]), allocation[i] - shares[i];
      assert AddsUp(tilt, before, here);
      assert SumInt(allocation[..n]) - SumInt(shares[..n]) == before + here;
    }
  }

  function Slope(slope: real): int -> real {
    k => slope * k as real
  }

  lemma SlopeTilts(slope: real)
    requires -1.0 <= slope <= 1.0
    ensures Tilts(Slope(slope), slope)
  {
    var tilt := Slope(slope);
    forall a: int, b: int ensures AddsUp(tilt, a, b) {
      assert slope * (a as real + b as real) == slope * a as real + slope * b as real;
    }
    forall k: int ensures Shallow(tilt, k) {
      ScaledDown(slope, k as real, tilt(k));
    }
  }

  lemma ProductNonNegative(a: real, b: real)
    requires a >= 0.0 && b >= 0.0
    ensures a * b >= 0.0
  {
  }

  lemma WithinAbs(z: real, x: real)
    requires -x <= z <= x || x <= z <= -x
    ensures Abs(z) <= Abs(x)
  {
  }

  lemma ScaledNonNegative(slope: real, x: real, z: real)
    requires -1.0 <= slope <= 1.0 && x >= 0.0 && z == slope * x
    ensures -x <= z <= x
  {
    ProductNonNegative(1.0 - slope, x);
    ProductNonNegative(1.0 + slope, x);
    assert (1.0 - slope) * x == x - z;
    assert (1.0 + slope) * x == x + z;
  }

  lemma ScaledNegative(slope: real, x: real, z: real)
    requires -1.0 <= slope <= 1.0 && x <= 0.0 && z == slope * x
    ensures x <= z <= -x
  {
    ProductNonPositive(1.0 - slope, x);
    ProductNonPositive(1.0 + slope, x);
    assert (1.0 - slope) * x == x - z;
    assert (1.0 + slope) * x == x + z;
  }

  lemma ScaledDown(slope: real, x: real, z: real)
    requires -1.0 <= slope <= 1.0 && z == slope * x
    ensures Abs(z) <= Abs(x)
  {
    if x >= 0.0 {
      ScaledNonNegative(slope, x, z);
    } else {
      ScaledNegative(slope, x, z);
    }
    WithinAbs(z, x);
  }

  lemma ProductNonPositive(a: real, b: real)
    requires a >= 0.0 && b <= 0.0
    ensures a * b <= 0.0
  {
  }

  /**
    A whole number `d` of paise over the base, against a remainder `r` in [0, 1]: with threshold `t`, moving
    away from 1 (if `r` reaches the threshold) or from 0 (if it does not exceed it) costs the slope 1 - 2t.
   */
  lemma SupportAbove(tilt: int -> real, r: real, t: real, d: int, raised: bool)
    requires 0.0 <= r <= 1.0 && 0.0 <= t <= 1.0 && Tilts(tilt, 1.0 - 2.0 * t)
    requires if raised then r >= t else r <= t
    ensures var e := if raised then 1 else 0;
            Abs(e as real - r) + tilt(d - e) <= Abs(d as real - r)
  {
    assert AddsUp(tilt, d - 1, 1);
    assert Shallow(tilt, d - 1) && Shallow(tilt, d);
  }

  /** The mirror image for remainders in [-1, 0]. */
  lemma SupportBelow(tilt: int -> real, r: real, t: real, d: int, lowered: bool)
    requires -1.0 <= r <= 0.0 && -1.0 <= t <= 0.0 && Tilts(tilt, -1.0 - 2.0 * t)
    requires if lowered then r <= t else r >= t
    ensures var e := if lowered then -1 else 0;
            Abs(e as real - r) + tilt(d - e) <= Abs(d as real - r)
  {
    assert AddsUp(tilt, d, 1);
    assert Shallow(tilt, d + 1) && Shallow(tilt, d);
  }

  lemma RankOrdersRemainders(claims: seq<Claim>, i: nat, j: nat)
    requires i < |claims| && j < |claims| && Rank(claims, i) <= Rank(claims, j)
    ensures Remainder(claims[i]) >= Remainder(claims[j])
  {
    KeysAreOrdered(claims);
    S.AheadIsTotal(Keys(claims), |claims|, i, j);
    if S.Ahead(Keys(claims), j, i) {
      S.RankMonotone(Keys(claims), |claims|, |claims|, j, i);
      RankIsPlace(claims, i);
      RankIsPlace(claims, j);
    }
  }

  lemma ShiftToRemainder(c: Claim, k: int, e: int)
    ensures k as real - c.ideal == (k - Base(c)) as real - Remainder(c)
    ensures (Base(c) + e) as real - c.ideal == e as real - Remainder(c)
    ensures (k - Base(c)) - e == k - (Base(c) + e)
  {
  }

  /** The threshold: the remainder of the last claim raised, or 1 when none is. */
  function RaiseThreshold(claims: seq<Claim>, leftover: nat): real
    requires leftover <= |claims|
  {
    if leftover == 0 then 1.0 else Remainder(claims[Order(claims)[leftover - 1]])
  }

  lemma RaisedReachThreshold(claims: seq<Claim>, leftover: nat, i: nat)
    requires leftover <= |claims| && i < |claims|
    requires forall j :: 0 <= j < |claims| ==> claims[j].ideal >= 0.0
    ensures 0.0 <= RaiseThreshold(claims, leftover) <= 1.0 && 0.0 <= Remainder(claims[i]) <= 1.0
    ensures Rank(claims, i) < leftover ==> Remainder(claims[i]) >= RaiseThreshold(claims, leftover)
    ensures Rank(claims, i) >= leftover ==> Remainder(claims[i]) <= RaiseThreshold(claims, leftover)
  {
    if leftover > 0 {
      var last := Order(claims)[leftover - 1];
      OrderIsByRank(claims, leftover - 1);
      if Rank(claims, i) < leftover {
        RankOrdersRemainders(claims, i, last);
      } else {
        RankOrdersRemainders(claims, last, i);
      }
    }
  }

  lemma RaisedClaimSupported(tilt: int -> real, claims: seq<Claim>, leftover: nat, i: nat, k: int)
    requires leftover <= |claims| && i < |claims| && Tilts(tilt, 1.0 - 2.0 * RaiseThreshold(claims, leftover))
    requires forall j :: 0 <= j < |claims| ==> claims[j].ideal >= 0.0
    ensures var share := RaisedFirst(claims, leftover)[i];
            Abs(share as real - claims[i].ideal) + tilt(k - share) <= Abs(k as real - claims[i].ideal)
  {
    var r, t, raised := Remainder(claims[i]), RaiseThreshold(claims, leftover), Rank(claims, i) < leftover;
    RaisedReachThreshold(claims, leftover, i);
    SupportAbove(tilt, r, t, k - Base(claims[i]), raised);
    ShiftToRemainder(claims[i], k, if raised then 1 else 0);
  }

  lemma OnlyRaising(amount: int, claims: seq<Claim>)
    requires claims != [] && Sum(Ideals(claims)) == amount as real
    requires forall i :: 0 <= i < |claims| ==> claims[i].ideal >= 0.0
    ensures 0 <= Leftover(amount, claims) <= |claims|
    ensures Shares(amount, claims) == RaisedFirst(claims, Leftover(amount, claims))
  {
    LeftoverBelowPositives(claims);
    NoNegatives(claims);
    RemaindersBound(claims);
    NoneRaised(claims);
  }

  lemma OnlyLowering(amount: int, claims: seq<Claim>)
    requires claims != [] && Sum(Ideals(claims)) == amount as real
    requires forall i :: 0 <= i < |claims| ==> claims[i].ideal <= 0.0
    ensures 0 <= -Leftover(amount, claims) <= |claims|
    ensures Shares(amount, claims) == LoweredLast(claims, -Leftover(amount, claims))
  {
    LeftoverBelowPositives(claims);
    NoPositives(claims);
    RemaindersBound(claims);
    NoneRaised(claims);
  }

  /** Non-negative ideals: the raised claims are those whose remainder reaches the last raised one. */
  lemma SupportedByRaising(amount: int, claims: seq<Claim>, allocation: seq<int>) returns (tilt: int -> real)
    requires |allocation| == |claims| && claims != [] && Sum(Ideals(claims)) == amount as real
    requires forall i :: 0 <= i < |claims| ==> claims[i].ideal >= 0.0
    ensures Supported(allocation, Shares(amount, claims), claims, tilt) && Tilts(tilt, tilt(1))
  {
    var leftover := Leftover(amount, claims);
    OnlyRaising(amount, claims);
    RaisedReachThreshold(claims, leftover, 0);
    var slope := 1.0 - 2.0 * RaiseThreshold(claims, leftover);
    tilt := Slope(slope);
    SlopeTilts(slope);
    forall i: nat | i < |claims|
      ensures Abs(Shares(amount, claims)[i] as real - claims[i].ideal) + tilt(allocation[i] - Shares(amount, claims)[i])
           <= Abs(allocation[i] as real - claims[i].ideal)
    {
      RaisedClaimSupported(tilt, claims, leftover, i, allocation[i]);
    }
  }

  function LowerThreshold(claims: seq<Claim>, surplus: nat): real
    requires surplus <= |claims|
  {
    if surplus == 0 then -1.0 else Remainder(claims[Order(claims)[|claims| - surplus]])
  }

  lemma LoweredReachThreshold(claims: seq<Claim>, surplus: nat, i: nat)
    requires surplus <= |claims| && i < |claims|
    requires forall j :: 0 <= j < |claims| ==> claims[j].ideal <= 0.0
    ensures -1.0 <= LowerThreshold(claims, surplus) <= 0.0 && -1.0 <= Remainder(claims[i]) <= 0.0
    ensures Rank(claims, i) >= |claims| - surplus ==> Remainder(claims[i]) <= LowerThreshold(claims, surplus)
    ensures Rank(claims, i) < |claims| - surplus ==> Remainder(claims[i]) >= LowerThreshold(claims, surplus)
  {
    RankIsPlace(claims, i);
    if surplus > 0 {
      var first := Order(claims)[|claims| - surplus];
      OrderIsByRank(claims, |claims| - surplus);
      if Rank(claims, i) < |claims| - surplus {
        RankOrdersRemainders(claims, i, first);
      } else {
        RankOrdersRemainders(claims, first, i);
      }
    }
  }

  lemma LoweredClaimSupported(tilt: int -> real, claims: seq<Claim>, surplus: nat, i: nat, k: int)
    requires surplus <= |claims| && i < |claims| && Tilts(tilt, -1.0 - 2.0 * LowerThreshold(claims, surplus))
    requires forall j :: 0 <= j < |claims| ==> claims[j].ideal <= 0.0
    ensures var share := LoweredLast(claims, surplus)[i];
            Abs(share as real - claims[i].ideal) + tilt(k - share) <= Abs(k as real - claims[i].ideal)
  {
    var r, t, lowered := Remainder(claims[i]), LowerThreshold(claims, surplus), Rank(claims, i) >= |claims| - surplus;
    LoweredReachThreshold(claims, surplus, i);
    SupportBelow(tilt, r, t, k - Base(claims[i]), lowered);
    ShiftToRemainder(claims[i], k, if lowered then -1 else 0);
  }

  /** Non-positive ideals: the lowered claims are those whose remainder does not exceed the first lowered one. */
  lemma SupportedByLowering(amount: int, claims: seq<Claim>, allocation: seq<int>) returns (tilt: int -> real)
    requires |allocation| == |claims| && claims != [] && Sum(Ideals(claims)) == amount as real
    requires forall i :: 0 <= i < |claims| ==> claims[i].ideal <= 0.0
    ensures Supported(allocation, Shares(amount, claims), claims, tilt) && Tilts(tilt, tilt(1))
  {
    var surplus := -Leftover(amount, claims);
    OnlyLowering(amount, claims);
    LoweredReachThreshold(claims, surplus, 0);
    var slope := -1.0 - 2.0 * LowerThreshold(claims, surplus);
    tilt := Slope(slope);
    SlopeTilts(slope);
    forall i: nat | i < |claims|
      ensures Abs(Shares(amount, claims)[i] as real - claims[i].ideal) + tilt(allocation[i] - Shares(amount, claims)[i])
           <= Abs(allocation[i] as real - claims[i].ideal)
    {
      LoweredClaimSupported(tilt, claims, surplus, i, allocation[i]);
    }
  }

  lemma {:induction false} NoNegatives(claims: seq<Claim>)
    requires forall i :: 0 <= i < |claims| ==> claims[i].ideal >= 0.0
    ensures Negatives(claims) == 0
  {
    if claims != [] {
      NoNegatives(claims[..|claims| - 1]);
    }
  }

  lemma {:induction false} NoPositives(claims: seq<Claim>)
    requires forall i :: 0 <= i < |claims| ==> claims[i].ideal <= 0.0
    ensures Positives(claims) == 0
  {
    if claims != [] {
      NoPositives(claims[..|claims| - 1]);
    }
  }

  lemma SupportedIsOptimal(amount: int, claims: seq<Claim>, allocation: seq<int>, tilt: int -> real)
    requires |allocation| == |claims| && SumInt(allocation) == SumInt(Shares(amount, claims))
    requires Supported(allocation, Shares(amount, claims), claims, tilt) && Tilts(tilt, tilt(1))
    ensures Deviation(Shares(amount, claims), claims) <= Deviation(allocation, claims)
  {
    var shares := Shares(amount, claims);
    SupportedDeviation(allocation, shares, claims, tilt, |claims|);
    assert allocation[..|claims|] == allocation && shares[..|claims|] == shares;
  }

  /** Ideals of one sign, as non-negative weights produce. */
  ghost predicate OneSign(claims: seq<Claim>) {
    || (forall i :: 0 <= i < |claims| ==> claims[i].ideal >= 0.0)
    || (forall i :: 0 <= i < |claims| ==> claims[i].ideal <= 0.0)
  }

  /** Optimality: no integer allocation of the same amount deviates less in total from ideals of one sign. */
  lemma SharesAreOptimal(amount: int, claims: seq<Claim>, allocation: seq<int>)
    requires |allocation| == |claims| && claims != [] && SumInt(allocation) == amount
    requires Sum(Ideals(claims)) == amount as real && OneSign(claims)
    ensures Deviation(Shares(amount, claims), claims) <= Deviation(allocation, claims)
  {
    PerturbedSharesStillSum(amount, claims);
    if forall i :: 0 <= i < |claims| ==> claims[i].ideal >= 0.0 {
      var tilt := SupportedByRaising(amount, claims, allocation);
      SupportedIsOptimal(amount, claims, allocation, tilt);
    } else {
      var tilt := SupportedByLowering(amount, claims, allocation);
      SupportedIsOptimal(amount, claims, allocation, tilt);
    }
  }

  // ----- Apportionment by area -----

  /**
    Apportioning any amount, of either sign, over flats with non-negative areas: the shares sum to the
    amount, each is strictly within a paisa of its ideal, and no other integer allocation comes closer in total.
   */
  lemma AreaSharesAreExactAndBest(amount: int, weights: seq<real>, ids: seq<string>, allocation: seq<int>)
    requires |weights| == |ids| && ids != [] && forall i :: 0 <= i < |weights| ==> weights[i] >= 0.0
    requires |allocation| == |ids| && SumInt(allocation) == amount
    ensures var claims := ExactClaims(amount, weights, ids);
            var shares := Shares(amount, claims);
            && SumInt(shares) == amount
            && (forall i :: 0 <= i < |ids| ==> Abs(shares[i] as real - claims[i].ideal) < 1.0)
            && Deviation(shares, claims) <= Deviation(allocation, claims)
  {
    var claims := ExactClaims(amount, weights, ids);
    ExactIdealsSum(amount, weights, ids);
    PerturbedSharesStillSum(amount, claims);
    forall i: nat | i < |ids| ensures Abs(Shares(amount, claims)[i] as real - claims[i].ideal) < 1.0 {
      QuotaHolds(amount, claims, i);
    }
    IdealsHaveOneSign(amount, weights, ids);
    SharesAreOptimal(amount, claims, allocation);
  }

  lemma IdealsHaveOneSign(amount: int, weights: seq<real>, ids: seq<string>)
    requires |weights| == |ids| && ids != [] && forall i :: 0 <= i < |weights| ==> weights[i] >= 0.0
    ensures var claims := ExactClaims(amount, weights, ids);
            OneSign(claims)
  {
    forall i: nat | i < |ids|
      ensures var ideal := ExactClaims(amount, weights, ids)[i].ideal; if amount >= 0 then ideal >= 0.0 else ideal <= 0.0
    {
      ExactIdeal(amount, weights, ids, i);
      IdealSign(amount as real, Weights(weights, |ids|)[i], TotalWeight(weights, |ids|));
    }
  }

  lemma IdealSign(a: real, w: real, total: real)
    requires w >= 0.0 && total > 0.0
    ensures a >= 0.0 ==> IdealOf(a, w, total) >= 0.0
    ensures a <= 0.0 ==> IdealOf(a, w, total) <= 0.0
  {
    ScaleIdeal(a, w, total);
    var k := a / total;
    assert k * total == a;
    FactorSign(k, total);
    if w > 0.0 {
      FactorSign(k, w);
    }
  }
}
