/** What the published map of an apportionment sums to. */
module ApportionmentSums {
  import opened Numerics
  import opened Wrappers
  import opened Apportionment
  import opened ApportionmentTheorems
  import opened ApportionmentOrder

  // ----- The values of a map -----

  /** The sum of the values of a map. */
  ghost function ValueSum(m: map<string, int>): int {
    if m == map[] then 0
    else
      var id :| id in m;
      m[id] + ValueSum(m - {id})
  }

  lemma {:induction false} ValueSumWithout(m: map<string, int>, id: string)
    requires id in m
    ensures ValueSum(m) == m[id] + ValueSum(m - {id})
    decreases |m|
  {
    var picked :| picked in m && ValueSum(m) == m[picked] + ValueSum(m - {picked});
    if picked != id {
      var rest := m - {picked};
      assert rest - {id} == m - {id} - {picked};
      ValueSumWithout(rest, id);
      ValueSumWithout(m - {id}, picked);
    }
  }

  lemma ValueSumUpdate(m: map<string, int>, id: string, x: int)
    ensures ValueSum(m[id := x]) == ValueSum(m) - (if id in m then m[id] else 0) + x
  {
    ValueSumWithout(m[id := x], id);
    if id in m {
      ValueSumWithout(m, id);
      assert m[id := x] - {id} == m - {id};
    } else {
      assert m[id := x] - {id} == m;
    }
  }

  /** The overwritten ones among the first `k` shares, once the first `n` are entered in the map. */
  function OverwrittenUpTo(ids: seq<string>, shares: seq<int>, k: nat, n: nat): int
    requires k <= n <= |ids| && |ids| == |shares|
  {
    if k == 0 then 0
    else OverwrittenUpTo(ids, shares, k - 1, n) + if Repeated(ids, k - 1, n) then shares[k - 1] else 0
  }

  function Overwritten(ids: seq<string>, shares: seq<int>): int
    requires |ids| == |shares|
  {
    OverwrittenUpTo(ids, shares, |ids|, |ids|)
  }

  /** The last place of an id before `n`. */
  lemma {:induction false} LastPlace(ids: seq<string>, n: nat, id: string) returns (i: nat)
    requires n <= |ids| && id in ids[..n]
    ensures i < n && ids[i] == id && !Repeated(ids, i, n)
  {
    if ids[n - 1] == id {
      return n - 1;
    }
    assert ids[..n] == ids[..n - 1] + [ids[n - 1]];
    i := LastPlace(ids, n - 1, id);
    RepeatedGrows(ids, i, n - 1);
  }

  /** Entering share `n` overwrites, among the first `k`, at most the one at the last earlier place of its id. */
  lemma {:induction false} OneMoreOverwritten(ids: seq<string>, shares: seq<int>, k: nat, n: nat, last: nat)
    requires k <= n < |ids| && |ids| == |shares|
    requires last < n && ids[last] == ids[n] && !Repeated(ids, last, n)
    ensures OverwrittenUpTo(ids, shares, k, n + 1)
         == OverwrittenUpTo(ids, shares, k, n) + if last < k then shares[last] else 0
  {
    if k > 0 {
      OneMoreOverwritten(ids, shares, k - 1, n, last);
      RepeatedGrows(ids, k - 1, n);
      if ids[k - 1] == ids[n] && k - 1 < last {
        assert ids[k..n][last - k] == ids[last];
      }
      if last < k - 1 {
        NothingLater(ids, last, k - 1, n);
      }
    }
  }

  lemma {:induction false} NoneOverwritten(ids: seq<string>, shares: seq<int>, k: nat, n: nat)
    requires k <= n < |ids| && |ids| == |shares| && ids[n] !in ids[..n]
    ensures OverwrittenUpTo(ids, shares, k, n + 1) == OverwrittenUpTo(ids, shares, k, n)
  {
    if k > 0 {
      NoneOverwritten(ids, shares, k - 1, n);
      RepeatedGrows(ids, k - 1, n);
      assert ids[..n][k - 1] == ids[k - 1];
    }
  }

  /** The map holds every share but the overwritten ones. */
  lemma {:induction false} MapSum(ids: seq<string>, shares: seq<int>, n: nat)
    requires n <= |ids| && |ids| == |shares|
    ensures ValueSum(ToMap(ids, shares, n)) == SumInt(shares[..n]) - OverwrittenUpTo(ids, shares, n, n)
  {
    if n > 0 {
      var before, id := ToMap(ids, shares, n - 1), ids[n - 1];
      MapSum(ids, shares, n - 1);
      SumIntPrefix(shares, n - 1);
      ValueSumUpdate(before, id, shares[n - 1]);
      EntryKeys(ids, shares, n - 1, id);
      assert ids[n..n] == [];
      if id in ids[..n - 1] {
        var last := LastPlace(ids, n - 1, id);
        EntryIsLast(ids, shares, n - 1, last);
        OneMoreOverwritten(ids, shares, n - 1, n - 1, last);
      } else {
        NoneOverwritten(ids, shares, n - 1, n - 1);
      }
    }
  }

  lemma OneFlat(amount: int, id: string, shares: seq<int>, ids: seq<string>)
    requires ids == [id] && |shares| == 1
    ensures ValueSum(map[id := amount]) == amount && Overwritten(ids, shares) == 0
  {
    var none: map<string, int> := map[];
    ValueSumUpdate(none, id, amount);
    assert none[id := amount] == map[id := amount];
    assert ids[1..1] == [];
    assert OverwrittenUpTo(ids, shares, 1, 1) == OverwrittenUpTo(ids, shares, 0, 1);
  }

  // ----- What the shares sum to -----

  /** What one pass over `n` flats can hand out or take back of a leftover. */
  function Kept(left: int, n: int): int {
    if left > n then n else if left < -n then -n else left
  }

  /** The shares sum to the amount less what one pass could not absorb. */
  lemma SharesSum(amount: int, claims: seq<Claim>)
    ensures var left := Leftover(amount, claims);
            SumInt(Shares(amount, claims)) == amount - (left - Kept(left, |claims|))
  {
    var left, n := Leftover(amount, claims), |claims|;
    if left > n {
      BeyondEveryone(claims, left);
      RaisedSum(claims, n);
    } else if left > 0 {
      RaisedSum(claims, left);
    } else if left < -n {
      BeyondEveryone(claims, -left);
      LoweredSum(claims, n);
    } else if left < 0 {
      LoweredSum(claims, -left);
    }
  }

  /** The shares that an accepted apportionment of at least two flats enters in its map. */
  function EnteredShares(amount: int, weights: seq<real>, ids: seq<string>): (shares: seq<int>)
    requires ids != [] && Weighted(weights, ids)
    ensures |shares| == |ids|
  {
    Shares(amount - ExcessPaise(amount, weights, ids), ExactClaims(amount, weights, ids))
  }

  /** What no flat is charged: whole paise of weights beyond the last flat, and a leftover that one pass cannot absorb. */
  function Unassigned(amount: int, weights: seq<real>, ids: seq<string>): int
    requires ids != [] && Weighted(weights, ids)
  {
    var excess := ExcessPaise(amount, weights, ids);
    var left := Leftover(amount - excess, ExactClaims(amount, weights, ids));
    excess + (left - Kept(left, |ids|))
  }

  lemma PublishedSum(amount: int, weights: seq<real>, ids: seq<string>)
    requires |ids| > 1 && Weighted(weights, ids)
    ensures ValueSum(Apportioned(amount, weights, ids))
         == amount - Unassigned(amount, weights, ids) - Overwritten(ids, EnteredShares(amount, weights, ids))
  {
    var shares := EnteredShares(amount, weights, ids);
    MapSum(ids, shares, |ids|);
    assert shares[..|ids|] == shares;
    SharesSum(amount - ExcessPaise(amount, weights, ids), ExactClaims(amount, weights, ids));
  }

  /**
    When the published map sums to the amount, for every input that is accepted.  Without flats: if and only if
    there is nothing to share.  For one flat: always.  For more: if and only if what is charged to no flat, and
    the shares that a repeated flat id overwrites, cancel.
   */
  lemma MapSumsToAmountIff(amount: int, weights: seq<real>, ids: seq<string>)
    requires |ids| > 1 ==> Weighted(weights, ids)
    ensures ValueSum(Apportioned(amount, weights, ids)) == amount
       <==> if ids == [] then amount == 0
            else if |ids| == 1 then true
            else Unassigned(amount, weights, ids) + Overwritten(ids, EnteredShares(amount, weights, ids)) == 0
  {
    if |ids| == 1 {
      OneFlat(amount, ids[0], [0], ids);
    } else if |ids| > 1 {
      PublishedSum(amount, weights, ids);
    }
  }

  /** With as many weights as flats nothing stays unassigned. */
  lemma EqualLengthsAssignAll(amount: int, weights: seq<real>, ids: seq<string>)
    requires |weights| == |ids| && ids != []
    ensures Unassigned(amount, weights, ids) == 0
  {
    NoExcess(amount, weights, ids);
    ExactIdealsSum(amount, weights, ids);
    RemaindersBound(ExactClaims(amount, weights, ids));
  }

  lemma {:induction false} DistinctNotOverwritten(ids: seq<string>, shares: seq<int>, k: nat)
    requires k <= |ids| && |ids| == |shares| && DistinctIds(ids)
    ensures OverwrittenUpTo(ids, shares, k, |ids|) == 0
  {
    if k > 0 {
      DistinctNotOverwritten(ids, shares, k - 1);
    }
  }

  /** For distinct flat ids, each with its weight, the sum is exact if and only if there is a flat, or nothing to share. */
  lemma MapSumsToAmount(amount: int, weights: seq<real>, ids: seq<string>)
    requires |weights| == |ids| && DistinctIds(ids)
    ensures ValueSum(Apportioned(amount, weights, ids)) == amount <==> ids != [] || amount == 0
    ensures forall id :: id in Apportioned(amount, weights, ids) <==> id in ids
  {
    MapSumsToAmountIff(amount, weights, ids);
    if |ids| > 1 {
      EqualLengthsAssignAll(amount, weights, ids);
      DistinctNotOverwritten(ids, EnteredShares(amount, weights, ids), |ids|);
      ApportionedIsShares(amount, weights, ids);
    }
  }

  // ----- Inputs whose map sums to every amount -----

  /** Entries that lose their share weigh nothing: those with a repeated id, and those beyond the last flat. */
  ghost predicate LosesNothing(weights: seq<real>, ids: seq<string>)
    requires Weighted(weights, ids)
  {
    var w := Weights(weights, |ids|);
    && (forall i :: 0 <= i < |ids| && Repeated(ids, i, |ids|) ==> w[i] == 0.0)
    && (forall i :: |ids| <= i < |w| ==> w[i] == 0.0)
  }

  function AllIdeals(amount: int, weights: seq<real>, n: nat): seq<real>
    requires n > 0
  {
    var w := Weights(weights, n);
    seq(|w|, i requires 0 <= i < |w| => IdealOf(amount as real, w[i], TotalWeight(weights, n)))
  }

  function Truncated(xs: seq<real>): seq<int> {
    seq(|xs|, i requires 0 <= i < |xs| => Trunc(xs[i]))
  }

  lemma {:induction false} SumIntSplit(xs: seq<int>, k: nat)
    requires k <= |xs|
    ensures SumInt(xs) == SumInt(xs[..k]) + SumInt(xs[k..])
    decreases |xs| - k
  {
    if k == |xs| {
      assert xs[..k] == xs;
    } else {
      var n := |xs| - 1;
      SumIntSplit(xs[..n], k);
      assert xs[..n][..k] == xs[..k] && xs[..n][k..] == xs[k..][..n - k];
    }
  }

  lemma {:induction false} SumSplit(xs: seq<real>, k: nat)
    requires k <= |xs|
    ensures Sum(xs) == Sum(xs[..k]) + Sum(xs[k..])
    decreases |xs| - k
  {
    if k == |xs| {
      assert xs[..k] == xs;
    } else {
      var n := |xs| - 1;
      SumSplit(xs[..n], k);
      assert xs[..n][..k] == xs[..k] && xs[..n][k..] == xs[k..][..n - k];
    }
  }

  lemma BasesAreFirst(amount: int, weights: seq<real>, ids: seq<string>)
    requires ids != [] && Weighted(weights, ids)
    ensures Bases(ExactClaims(amount, weights, ids)) == Truncated(AllIdeals(amount, weights, |ids|))[..|ids|]
  {
    forall i: nat | i < |ids|
      ensures ExactClaims(amount, weights, ids)[i].ideal == AllIdeals(amount, weights, |ids|)[i]
    {
      ExactIdeal(amount, weights, ids, i);
    }
  }

  lemma ExcessIsRest(amount: int, weights: seq<real>, ids: seq<string>)
    requires ids != [] && Weighted(weights, ids)
    ensures ExcessPaise(amount, weights, ids) == SumInt(Truncated(AllIdeals(amount, weights, |ids|))[|ids|..])
  {
    var w, total, n := Weights(weights, |ids|), TotalWeight(weights, |ids|), |ids|;
    assert Truncated(AllIdeals(amount, weights, n))[n..]
        == seq(|w| - n, k requires 0 <= k < |w| - n => Trunc(IdealOf(amount as real, w[n + k], total)));
  }

  /** The base shares of the flats and the excess are the truncated ideals of all weights. */
  lemma BasesAndExcess(amount: int, weights: seq<real>, ids: seq<string>)
    requires ids != [] && Weighted(weights, ids)
    ensures SumInt(Bases(ExactClaims(amount, weights, ids))) + ExcessPaise(amount, weights, ids)
         == SumInt(Truncated(AllIdeals(amount, weights, |ids|)))
  {
    SumIntSplit(Truncated(AllIdeals(amount, weights, |ids|)), |ids|);
    BasesAreFirst(amount, weights, ids);
    ExcessIsRest(amount, weights, ids);
  }

  lemma {:induction false} TruncatedSum(xs: seq<real>)
    requires forall i :: 0 <= i < |xs| ==> xs[i] >= 0.0
    ensures SumInt(Truncated(xs)) as real <= Sum(xs)
  {
    if xs != [] {
      var n := |xs| - 1;
      TruncatedSum(xs[..n]);
      assert Truncated(xs)[..n] == Truncated(xs[..n]);
    }
  }

  /** The ideal shares of `w` when a unit of weight is worth `k`. */
  function IdealsAt(w: seq<real>, k: real): seq<real> {
    seq(|w|, i requires 0 <= i < |w| => k * w[i])
  }

  lemma AllIdealsAt(amount: int, weights: seq<real>, n: nat)
    requires n > 0
    ensures AllIdeals(amount, weights, n) == IdealsAt(Weights(weights, n), amount as real / TotalWeight(weights, n))
  {
    var w, total := Weights(weights, n), TotalWeight(weights, n);
    var k := amount as real / total;
    forall i | 0 <= i < |w| ensures AllIdeals(amount, weights, n)[i] == IdealsAt(w, k)[i] {
      ScaleIdeal(amount as real, w[i], total);
    }
  }

  lemma IdealsAtSum(w: seq<real>, a: real, total: real)
    requires Sum(w) == total > 0.0
    ensures Sum(IdealsAt(w, a / total)) == a
  {
    var k := a / total;
    SumScaled(w, IdealsAt(w, k), k);
    QuotientTimes(a, total, k);
  }

  lemma AllIdealsSum(amount: int, weights: seq<real>, n: nat)
    requires n > 0
    ensures Sum(AllIdeals(amount, weights, n)) == amount as real
  {
    AllIdealsAt(amount, weights, n);
    TotalIsSum(weights, n);
    IdealsAtSum(Weights(weights, n), amount as real, TotalWeight(weights, n));
  }

  ghost predicate NoneNegative(w: seq<real>) {
    forall i :: 0 <= i < |w| ==> w[i] >= 0.0
  }

  lemma AllIdealsNotNegative(amount: nat, weights: seq<real>, n: nat)
    requires n > 0 && NoneNegative(Weights(weights, n))
    ensures NoneNegative(AllIdeals(amount, weights, n))
  {
    var w := Weights(weights, n);
    forall i | 0 <= i < |w| ensures AllIdeals(amount, weights, n)[i] >= 0.0 {
      IdealSign(amount as real, w[i], TotalWeight(weights, n));
    }
  }

  /** An amount that is not negative never leaves a surplus to take back. */
  lemma NothingToTakeBack(amount: nat, weights: seq<real>, ids: seq<string>)
    requires ids != [] && Weighted(weights, ids) && NoneNegative(Weights(weights, |ids|))
    ensures Leftover(amount - ExcessPaise(amount, weights, ids), ExactClaims(amount, weights, ids)) >= 0
  {
    BasesAndExcess(amount, weights, ids);
    AllIdealsNotNegative(amount, weights, |ids|);
    TruncatedSum(AllIdeals(amount, weights, |ids|));
    AllIdealsSum(amount, weights, |ids|);
  }

  lemma {:induction false} SumAtLeast(xs: seq<int>, i: nat)
    requires i < |xs| && forall k :: 0 <= k < |xs| ==> xs[k] >= 0
    ensures SumInt(xs) >= xs[i] && SumInt(xs) >= 0
    decreases |xs|
  {
    var n := |xs| - 1;
    if i < n {
      SumAtLeast(xs[..n], i);
    } else if n > 0 {
      SumAtLeast(xs[..n], 0);
    }
  }

  /** An amount that gives weight `w` at least a paisa. */
  function EnoughFor(w: real, total: real): nat
    requires w > 0.0 && total > 0.0
  {
    QuotientPositive(total, w);
    (total / w).Floor + 1
  }

  lemma QuotientPositive(a: real, b: real)
    requires a > 0.0 && b > 0.0
    ensures a / b > 0.0
  {
    var q := a / b;
    assert q * b == a;
    FactorSign(q, b);
  }

  lemma EnoughIsEnough(w: real, total: real)
    requires w > 0.0 && total > 0.0
    ensures Trunc(IdealOf(EnoughFor(w, total) as real, w, total)) >= 1
  {
    var a, q := EnoughFor(w, total) as real, total / w;
    QuotientTimes(total, w, q);
    TimesAtLeast(a, q, w, total);
    AtLeastOne(a * w, total);
    var ideal := IdealOf(a, w, total);
    assert ideal >= 1.0;
    TruncMonotone(1.0, ideal);
  }

  lemma TimesAtLeast(a: real, q: real, w: real, total: real)
    requires w > 0.0 && a >= q && q * w == total
    ensures a * w >= total
  {
    ProductNonNegative(a - q, w);
    assert (a - q) * w == a * w - q * w;
  }

  lemma AtLeastOne(a: real, b: real)
    requires b > 0.0 && a >= b
    ensures a / b >= 1.0
  {
    var q := a / b;
    QuotientTimes(a, b, q);
    assert (q - 1.0) * b == q * b - b;
    FactorSign(q - 1.0, b);
  }

  lemma EnteredNotNegative(amount: nat, weights: seq<real>, ids: seq<string>)
    requires ids != [] && Weighted(weights, ids) && NoneNegative(Weights(weights, |ids|))
    ensures forall i :: 0 <= i < |ids| ==>
      EnteredShares(amount, weights, ids)[i] >= Base(ExactClaims(amount, weights, ids)[i]) >= 0
  {
    NothingToTakeBack(amount, weights, ids);
    AllIdealsNotNegative(amount, weights, |ids|);
    forall i: nat | i < |ids| ensures Base(ExactClaims(amount, weights, ids)[i]) >= 0 {
      assert ExactClaims(amount, weights, ids)[i].ideal == AllIdeals(amount, weights, |ids|)[i];
    }
  }

  lemma ExcessAtLeast(amount: nat, weights: seq<real>, ids: seq<string>, i: nat)
    requires ids != [] && Weighted(weights, ids) && NoneNegative(Weights(weights, |ids|))
    requires |ids| <= i < |Weights(weights, |ids|)|
    ensures ExcessPaise(amount, weights, ids)
         >= Trunc(IdealOf(amount as real, Weights(weights, |ids|)[i], TotalWeight(weights, |ids|)))
  {
    var w, total, n := Weights(weights, |ids|), TotalWeight(weights, |ids|), |ids|;
    AllIdealsNotNegative(amount, weights, n);
    var excess := seq(|w| - n, k requires 0 <= k < |w| - n => Trunc(IdealOf(amount as real, w[n + k], total)));
    forall k: nat | k < |excess| ensures excess[k] >= 0 {
      var ideal := AllIdeals(amount, weights, n)[n + k];
      assert ideal >= 0.0 && excess[k] == Trunc(ideal);
    }
    SumAtLeast(excess, i - n);
    assert excess[i - n] == Trunc(IdealOf(amount as real, w[i], total));
  }

  lemma ExcessNotNegative(amount: nat, weights: seq<real>, ids: seq<string>)
    requires ids != [] && Weighted(weights, ids) && NoneNegative(Weights(weights, |ids|))
    ensures ExcessPaise(amount, weights, ids) >= 0
  {
    if |Weights(weights, |ids|)| > |ids| {
      AllIdealsNotNegative(amount, weights, |ids|);
      assert AllIdeals(amount, weights, |ids|)[|ids|] >= 0.0;
      ExcessAtLeast(amount, weights, ids, |ids|);
    }
  }

  lemma {:induction false} OverwrittenAtLeast(ids: seq<string>, shares: seq<int>, k: nat, i: nat)
    requires k <= |ids| == |shares| && forall j :: 0 <= j < |shares| ==> shares[j] >= 0
    ensures OverwrittenUpTo(ids, shares, k, |ids|) >= 0
    ensures i < k && Repeated(ids, i, |ids|) ==> OverwrittenUpTo(ids, shares, k, |ids|) >= shares[i]
  {
    if k > 0 {
      OverwrittenAtLeast(ids, shares, k - 1, i);
    }
  }

  /** A weight that loses its share loses at least a paisa of a large enough amount. */
  lemma SomeAmountIsLost(weights: seq<real>, ids: seq<string>, i: nat)
    requires |ids| > 1 && Weighted(weights, ids) && NoneNegative(Weights(weights, |ids|))
    requires i < |Weights(weights, |ids|)| && Weights(weights, |ids|)[i] > 0.0
    requires i < |ids| ==> Repeated(ids, i, |ids|)
    ensures var amount := EnoughFor(Weights(weights, |ids|)[i], TotalWeight(weights, |ids|));
            ValueSum(Apportioned(amount, weights, ids)) < amount
  {
    var w, total := Weights(weights, |ids|)[i], TotalWeight(weights, |ids|);
    var amount := EnoughFor(w, total);
    EnoughIsEnough(w, total);
    PublishedSum(amount, weights, ids);
    NothingToTakeBack(amount, weights, ids);
    ExcessNotNegative(amount, weights, ids);
    EnteredNotNegative(amount, weights, ids);
    OverwrittenAtLeast(ids, EnteredShares(amount, weights, ids), |ids|, i);
    if i < |ids| {
      ExactIdeal(amount, weights, ids, i);
    } else {
      ExcessAtLeast(amount, weights, ids, i);
    }
  }

  lemma {:induction false} NothingOverwritten(ids: seq<string>, shares: seq<int>, k: nat)
    requires k <= |ids| == |shares|
    requires forall i :: 0 <= i < |ids| && Repeated(ids, i, |ids|) ==> shares[i] == 0
    ensures OverwrittenUpTo(ids, shares, k, |ids|) == 0
  {
    if k > 0 {
      NothingOverwritten(ids, shares, k - 1);
    }
  }

  lemma {:induction false} SumOfZeros(xs: seq<real>)
    requires forall i :: 0 <= i < |xs| ==> xs[i] == 0.0
    ensures Sum(xs) == 0.0
  {
    if xs != [] {
      SumOfZeros(xs[..|xs| - 1]);
    }
  }

  lemma NoExcessWeight(amount: int, weights: seq<real>, ids: seq<string>)
    requires ids != [] && Weighted(weights, ids)
    requires var w := Weights(weights, |ids|); forall i :: |ids| <= i < |w| ==> w[i] == 0.0
    ensures ExcessPaise(amount, weights, ids) == 0
    ensures Sum(Ideals(ExactClaims(amount, weights, ids))) == amount as real
  {
    var all, n := AllIdeals(amount, weights, |ids|), |ids|;
    forall i | n <= i < |all| ensures all[i] == 0.0 {
      ZeroIdeal(amount as real, TotalWeight(weights, n));
    }
    AllIdealsSum(amount, weights, n);
    SumSplit(all, n);
    SumOfZeros(all[n..]);
    IdealsAreFirst(amount, weights, ids);
    AllZero(Truncated(all)[n..]);
    ExcessIsRest(amount, weights, ids);
  }

  lemma IdealsAreFirst(amount: int, weights: seq<real>, ids: seq<string>)
    requires ids != [] && Weighted(weights, ids)
    ensures Ideals(ExactClaims(amount, weights, ids)) == AllIdeals(amount, weights, |ids|)[..|ids|]
  {
    forall i: nat | i < |ids|
      ensures ExactClaims(amount, weights, ids)[i].ideal == AllIdeals(amount, weights, |ids|)[i]
    {
      ExactIdeal(amount, weights, ids, i);
    }
  }

  lemma ZeroIdeal(a: real, total: real)
    requires total > 0.0
    ensures IdealOf(a, 0.0, total) == 0.0
  {
    assert a * 0.0 == 0.0;
  }

  lemma WeightlessShare(amount: int, weights: seq<real>, ids: seq<string>, i: nat)
    requires Weighted(weights, ids) && i < |ids| && Weights(weights, |ids|)[i] == 0.0
    requires Sum(Ideals(ExactClaims(amount, weights, ids))) == amount as real
    ensures Shares(amount, ExactClaims(amount, weights, ids))[i] == 0
  {
    ExactIdeal(amount, weights, ids, i);
    ZeroIdeal(amount as real, TotalWeight(weights, |ids|));
    QuotaHolds(amount, ExactClaims(amount, weights, ids), i);
  }

  lemma NothingIsLost(amount: int, weights: seq<real>, ids: seq<string>)
    requires |ids| > 1 && Weighted(weights, ids) && LosesNothing(weights, ids)
    ensures ValueSum(Apportioned(amount, weights, ids)) == amount
  {
    var shares := EnteredShares(amount, weights, ids);
    NoExcessWeight(amount, weights, ids);
    RemaindersBound(ExactClaims(amount, weights, ids));
    forall i: nat | i < |ids| && Repeated(ids, i, |ids|) ensures shares[i] == 0 {
      WeightlessShare(amount, weights, ids, i);
    }
    NothingOverwritten(ids, shares, |ids|);
    PublishedSum(amount, weights, ids);
  }

  /**
    Which flats and weights, none of them negative, are shared out exactly whatever the amount: those where every
    entry that a repeated id overwrites, and every entry beyond the last flat, weighs nothing.
   */
  lemma SumsToEveryAmountIff(weights: seq<real>, ids: seq<string>)
    requires |ids| > 1 && Weighted(weights, ids) && NoneNegative(Weights(weights, |ids|))
    ensures (forall amount :: ValueSum(Apportioned(amount, weights, ids)) == amount) <==> LosesNothing(weights, ids)
  {
    if LosesNothing(weights, ids) {
      forall amount ensures ValueSum(Apportioned(amount, weights, ids)) == amount {
        NothingIsLost(amount, weights, ids);
      }
    } else {
      var w := Weights(weights, |ids|);
      var i: nat :| i < |w| && w[i] != 0.0 && (i < |ids| ==> Repeated(ids, i, |ids|));
      SomeAmountIsLost(weights, ids, i);
    }
  }

  // ----- Inputs where the sum is missed -----

  /** Without flats nothing is shared out: a thousand paise are lost. */
  lemma NoFlatsLoseTheAmount()
    ensures Apportioned(1000, [], []) == map[] && ValueSum(Apportioned(1000, [], [])) == 0
  {
  }

  /** Two entries of one flat: of two paise the map keeps one. */
  lemma RepeatedFlatLosesAShare()
    ensures ValueSum(Apportioned(2, [1.0, 1.0], ["a", "a"])) == 1
  {
    var weights, ids := [1.0, 1.0], ["a", "a"];
    var claims := ExactClaims(2, weights, ids);
    assert weights[..1] == [1.0] && [1.0][..0] == [];
    assert Sum(weights) == Sum([1.0]) + 1.0 && Sum([1.0]) == Sum([]) + 1.0;
    ExactIdealsSum(2, weights, ids);
    QuotaHolds(2, claims, 0);
    NoExcess(2, weights, ids);
    var shares := EnteredShares(2, weights, ids);
    assert claims[0].ideal == 1.0 && shares[0] == 1;
    EqualLengthsAssignAll(2, weights, ids);
    PublishedSum(2, weights, ids);
    assert ids[1..2][0] == ids[0] && ids[2..2] == [];
    assert Repeated(ids, 0, 2) && !Repeated(ids, 1, 2);
    assert OverwrittenUpTo(ids, shares, 1, 2) == OverwrittenUpTo(ids, shares, 0, 2) + shares[0];
    assert Overwritten(ids, shares) == 1;
  }

  lemma SumOfThree(x: real, y: real, z: real)
    ensures Sum([x, y]) == x + y && Sum([x, y, z]) == x + y + z
  {
    assert [x][..0] == [] && [x, y][..1] == [x] && [x, y, z][..2] == [x, y];
    assert Sum([x]) == Sum([]) + x && Sum([x, y]) == Sum([x]) + y;
  }

  lemma SumIntOfTwo(x: int, y: int)
    ensures SumInt([x]) == x && SumInt([x, y]) == x + y
  {
    assert [x][..0] == [] && [x, y][..1] == [x];
  }

  lemma ThreeWeightsExcess()
    ensures Weighted([1.0, 1.0, 8.0], ["a", "b"]) && ExcessPaise(10, [1.0, 1.0, 8.0], ["a", "b"]) == 8
    ensures Bases(ExactClaims(10, [1.0, 1.0, 8.0], ["a", "b"])) == [1, 1]
  {
    var weights, ids := [1.0, 1.0, 8.0], ["a", "b"];
    SumOfThree(1.0, 1.0, 8.0);
    SumIntOfTwo(8, 0);
    assert seq(1, k requires 0 <= k < 1 => Trunc(IdealOf(10.0, weights[2 + k], 10.0))) == [8];
  }

  /** A third weight without a flat takes eight of ten paise. */
  lemma ExcessWeightTakesItsShare()
    ensures Weighted([1.0, 1.0, 8.0], ["a", "b"])
    ensures ValueSum(Apportioned(10, [1.0, 1.0, 8.0], ["a", "b"])) == 2
  {
    var weights, ids := [1.0, 1.0, 8.0], ["a", "b"];
    ThreeWeightsExcess();
    SumIntOfTwo(1, 1);
    PublishedSum(10, weights, ids);
    DistinctNotOverwritten(ids, EnteredShares(10, weights, ids), 2);
  }
}
