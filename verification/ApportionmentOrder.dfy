/** The order in which the flats are listed does not matter: ties are broken by flat id, not by position. */
module ApportionmentOrder {
  import opened Numerics
  import opened Apportionment
  import opened ApportionmentTheorems
  import S = StableSort

  type Flat = (real, string)

  function SumBy<T>(xs: seq<T>, f: T -> real): real {
    if xs == [] then 0.0 else SumBy(xs[..|xs| - 1], f) + f(xs[|xs| - 1])
  }

  lemma {:induction false} SumByRemove<T>(xs: seq<T>, k: nat, f: T -> real)
    requires k < |xs|
    ensures SumBy(xs, f) == SumBy(xs[..k] + xs[k + 1..], f) + f(xs[k])
  {
    var n := |xs| - 1;
    var rest := xs[..k] + xs[k + 1..];
    if k == n {
      assert rest == xs[..n];
    } else {
      SumByRemove(xs[..n], k, f);
      assert rest[..n - 1] == xs[..n][..k] + xs[..n][k + 1..];
    }
  }

  lemma RemoveOne<T>(ys: seq<T>, x: T) returns (k: nat)
    requires x in multiset(ys)
    ensures k < |ys| && ys[k] == x && multiset(ys[..k] + ys[k + 1..]) == multiset(ys) - multiset{x}
  {
    k :| k < |ys| && ys[k] == x;
    var before, after := ys[..k], ys[k + 1..];
    assert ys == before + ([x] + after);
    assert multiset(ys) == multiset(before) + (multiset{x} + multiset(after));
  }

  /** A sum depends on the elements only, not on their order. */
  lemma {:induction false} SumByPermutation<T>(xs: seq<T>, ys: seq<T>, f: T -> real)
    requires multiset(xs) == multiset(ys)
    ensures SumBy(xs, f) == SumBy(ys, f)
  {
    if xs == [] {
      assert |multiset(ys)| == 0;
    } else {
      var n := |xs| - 1;
      assert xs == xs[..n] + [xs[n]];
      assert xs[n] in multiset(ys);
      var k := RemoveOne(ys, xs[n]);
      assert multiset(xs) == multiset(xs[..n]) + multiset{xs[n]};
      SumByPermutation(xs[..n], ys[..k] + ys[k + 1..], f);
      SumByRemove(ys, k, f);
    }
  }

  function Flats(weights: seq<real>, ids: seq<string>): seq<Flat>
    requires |weights| == |ids|
  {
    seq(|ids|, i requires 0 <= i < |ids| => (weights[i], ids[i]))
  }

  ghost predicate DistinctIds(ids: seq<string>) {
    forall i, j :: 0 <= i < j < |ids| ==> ids[i] != ids[j]
  }

  lemma {:induction false} WeightSum(weights: seq<real>, ids: seq<string>)
    requires |weights| == |ids|
    ensures Sum(weights) == SumBy(Flats(weights, ids), (p: Flat) => p.0)
  {
    if ids != [] {
      var n := |ids| - 1;
      assert Flats(weights, ids)[..n] == Flats(weights[..n], ids[..n]);
      WeightSum(weights[..n], ids[..n]);
    }
  }

  /** The claim of one flat, given the sum of all the weights and their number. */
  function ClaimOf(amount: int, sum: real, n: nat, p: Flat): Claim
    requires n > 0
  {
    if sum <= 0.0 then Claim(IdealOf(amount as real, 1.0, n as real), p.1)
    else Claim(IdealOf(amount as real, p.0, sum), p.1)
  }

  lemma ClaimsAreOfFlats(amount: int, weights: seq<real>, ids: seq<string>, i: nat)
    requires |weights| == |ids| && i < |ids|
    ensures ExactClaims(amount, weights, ids)[i] == ClaimOf(amount, Sum(weights), |ids|, Flats(weights, ids)[i])
  {
  }

  /** `claims` lists the claim of every flat of `flats`, in the same order. */
  ghost predicate Claims(claims: seq<Claim>, flats: seq<Flat>, of: Flat -> Claim) {
    |claims| == |flats| && forall i :: 0 <= i < |flats| ==> claims[i] == of(flats[i])
  }

  function BaseOf(of: Flat -> Claim): Flat -> real {
    p => Base(of(p)) as real
  }

  lemma {:induction false} BaseSum(claims: seq<Claim>, flats: seq<Flat>, of: Flat -> Claim)
    requires Claims(claims, flats, of)
    ensures SumInt(Bases(claims)) as real == SumBy(flats, BaseOf(of))
  {
    if flats != [] {
      var n := |flats| - 1;
      assert Bases(claims)[..n] == Bases(claims[..n]);
      BaseSum(claims[..n], flats[..n], of);
    }
  }

  function AheadBy(of: Flat -> Claim, x: Claim): Flat -> real {
    p => if KeyLess(of(p), x) then 1.0 else 0.0
  }

  ghost predicate DistinctClaims(claims: seq<Claim>) {
    forall i, j :: 0 <= i < j < |claims| ==> claims[i].id != claims[j].id
  }

  /** Without repeated ids no two keys are equal, so the rank counts the smaller keys. */
  lemma {:induction false} RankSum(claims: seq<Claim>, flats: seq<Flat>, of: Flat -> Claim, n: nat, i: nat)
    requires Claims(claims, flats, of) && DistinctClaims(claims) && n <= |claims| && i < |claims|
    ensures S.Rank(Keys(claims), n, i) as real == SumBy(flats[..n], AheadBy(of, claims[i]))
  {
    if n > 0 {
      RankSum(claims, flats, of, n - 1, i);
      assert flats[..n][..n - 1] == flats[..n - 1];
      KeyOrder(claims[n - 1], claims[i], claims[n - 1]);
      DistinctKeys(claims[n - 1], claims[i]);
    }
  }

  lemma DistinctKeys(a: Claim, b: Claim)
    ensures a.id != b.id ==> KeyLess(a, b) || KeyLess(b, a)
    ensures !KeyLess(a, a)
  {
    StringOrder(a.id, b.id, a.id);
    StringOrder(a.id, a.id, a.id);
  }

  lemma LeftoverIsOrderFree(
      amount: int, claims: seq<Claim>, others: seq<Claim>, flats: seq<Flat>, shuffled: seq<Flat>, of: Flat -> Claim)
    requires Claims(claims, flats, of) && Claims(others, shuffled, of) && multiset(flats) == multiset(shuffled)
    ensures |claims| == |others| && Leftover(amount, claims) == Leftover(amount, others)
  {
    BaseSum(claims, flats, of);
    BaseSum(others, shuffled, of);
    SumByPermutation(flats, shuffled, BaseOf(of));
    assert |multiset(flats)| == |multiset(shuffled)|;
  }

  lemma RankIsOrderFree(
      claims: seq<Claim>, others: seq<Claim>, flats: seq<Flat>, shuffled: seq<Flat>, of: Flat -> Claim, i: nat, j: nat)
    requires Claims(claims, flats, of) && Claims(others, shuffled, of) && multiset(flats) == multiset(shuffled)
    requires DistinctClaims(claims) && DistinctClaims(others)
    requires i < |claims| && j < |others| && claims[i] == others[j]
    ensures Rank(claims, i) == Rank(others, j)
  {
    RankSum(claims, flats, of, |claims|, i);
    RankSum(others, shuffled, of, |others|, j);
    SumByPermutation(flats, shuffled, AheadBy(of, claims[i]));
    assert flats[..|flats|] == flats && shuffled[..|shuffled|] == shuffled;
  }

  /** The share of a flat depends only on which flats there are. */
  lemma ShareIsOrderFree(
      amount: int, claims: seq<Claim>, others: seq<Claim>, flats: seq<Flat>, shuffled: seq<Flat>,
      of: Flat -> Claim, i: nat, j: nat)
    requires Claims(claims, flats, of) && Claims(others, shuffled, of)
    requires DistinctClaims(claims) && DistinctClaims(others)
    requires multiset(flats) == multiset(shuffled)
    requires i < |claims| && j < |others| && claims[i] == others[j]
    ensures Shares(amount, claims)[i] == Shares(amount, others)[j]
  {
    LeftoverIsOrderFree(amount, claims, others, flats, shuffled, of);
    RankIsOrderFree(claims, others, flats, shuffled, of, i, j);
  }

  lemma FlatIn(flats: seq<Flat>, shuffled: seq<Flat>, i: nat) returns (j: nat)
    requires multiset(flats) == multiset(shuffled) && i < |flats|
    ensures j < |shuffled| && shuffled[j] == flats[i]
  {
    assert flats[i] in multiset(shuffled);
    j :| 0 <= j < |shuffled| && shuffled[j] == flats[i];
  }

  lemma SharesMatch(
      amount: int, weights: seq<real>, ids: seq<string>, otherWeights: seq<real>, otherIds: seq<string>, i: nat, j: nat)
    requires |weights| == |ids| && |otherWeights| == |otherIds| && DistinctIds(ids) && DistinctIds(otherIds)
    requires multiset(Flats(weights, ids)) == multiset(Flats(otherWeights, otherIds))
    requires i < |ids| && j < |otherIds| && Flats(weights, ids)[i] == Flats(otherWeights, otherIds)[j]
    ensures Shares(amount, ExactClaims(amount, weights, ids))[i]
         == Shares(amount, ExactClaims(amount, otherWeights, otherIds))[j]
  {
    var flats, shuffled := Flats(weights, ids), Flats(otherWeights, otherIds);
    var claims, others := ExactClaims(amount, weights, ids), ExactClaims(amount, otherWeights, otherIds);
    assert |multiset(flats)| == |multiset(shuffled)|;
    WeightSum(weights, ids);
    WeightSum(otherWeights, otherIds);
    SumByPermutation(flats, shuffled, (p: Flat) => p.0);
    var sum, n: nat := Sum(weights), |ids|;
    var of := (p: Flat) => if n > 0 then ClaimOf(amount, sum, n, p) else Claim(0.0, p.1);
    forall k: nat | k < n ensures claims[k] == of(flats[k]) && others[k] == of(shuffled[k]) {
      ClaimsAreOfFlats(amount, weights, ids, k);
      ClaimsAreOfFlats(amount, otherWeights, otherIds, k);
    }
    ShareIsOrderFree(amount, claims, others, flats, shuffled, of, i, j);
  }

  // ----- The published map -----

  /** The id at place `i` comes again before place `n`: a later share overwrites this one. */
  predicate Repeated(ids: seq<string>, i: nat, n: nat)
    requires i < n <= |ids|
  {
    ids[i] in ids[i + 1..n]
  }

  lemma RepeatedGrows(ids: seq<string>, i: nat, n: nat)
    requires i < n < |ids|
    ensures Repeated(ids, i, n + 1) <==> Repeated(ids, i, n) || ids[i] == ids[n]
  {
    assert ids[i + 1..n + 1] == ids[i + 1..n] + [ids[n]];
  }

  /** The share that `id` has after the first `n` entries, if it is among them: that of its last place. */
  lemma {:induction false} EntryIsLast(ids: seq<string>, shares: seq<int>, n: nat, i: nat)
    requires i < n <= |ids| && |ids| == |shares| && !Repeated(ids, i, n)
    ensures ids[i] in ToMap(ids, shares, n) && ToMap(ids, shares, n)[ids[i]] == shares[i]
  {
    if i < n - 1 {
      RepeatedGrows(ids, i, n - 1);
      EntryIsLast(ids, shares, n - 1, i);
    }
  }

  lemma NothingLater(ids: seq<string>, last: nat, i: nat, n: nat)
    requires last < i < n <= |ids| && !Repeated(ids, last, n)
    ensures ids[i] != ids[last]
  {
    assert ids[last + 1..n][i - (last + 1)] == ids[i];
  }

  lemma {:induction false} EntryKeys(ids: seq<string>, shares: seq<int>, n: nat, id: string)
    requires n <= |ids| && |ids| == |shares|
    ensures id in ToMap(ids, shares, n) <==> id in ids[..n]
  {
    if n > 0 {
      EntryKeys(ids, shares, n - 1, id);
      assert ids[..n] == ids[..n - 1] + [ids[n - 1]];
    }
  }

  /** Without repeated ids the result maps every id to its share, and nothing else. */
  lemma ToMapCorrect(ids: seq<string>, shares: seq<int>)
    requires |ids| == |shares| && DistinctIds(ids)
    ensures var m := ToMap(ids, shares, |ids|);
            && (forall id :: id in m <==> id in ids)
            && (forall i :: 0 <= i < |ids| ==> ids[i] in m && m[ids[i]] == shares[i])
  {
    var m := ToMap(ids, shares, |ids|);
    assert ids[..|ids|] == ids;
    forall id ensures id in m <==> id in ids {
      EntryKeys(ids, shares, |ids|, id);
    }
    forall i: nat | i < |ids| ensures ids[i] in m && m[ids[i]] == shares[i] {
      EntryIsLast(ids, shares, |ids|, i);
    }
  }

  /** With at least two flats the map holds exactly the ids, each with its share. */
  lemma ApportionedIsShares(amount: int, weights: seq<real>, ids: seq<string>)
    requires |weights| == |ids| > 1 && DistinctIds(ids)
    ensures var m := Apportioned(amount, weights, ids);
            && (forall id :: id in m <==> id in ids)
            && (forall i :: 0 <= i < |ids| ==> ids[i] in m && m[ids[i]] == Shares(amount, ExactClaims(amount, weights, ids))[i])
  {
    NoExcess(amount, weights, ids);
    ToMapCorrect(ids, Shares(amount, ExactClaims(amount, weights, ids)));
  }

  lemma NoExcess(amount: int, weights: seq<real>, ids: seq<string>)
    requires |weights| == |ids| && ids != []
    ensures ExcessPaise(amount, weights, ids) == 0
  {
  }

  /** Every entry of the one map is an entry of the other. */
  lemma EntriesCarryOver(
      amount: int, weights: seq<real>, ids: seq<string>, otherWeights: seq<real>, otherIds: seq<string>, id: string)
    requires |weights| == |ids| > 1 && |otherWeights| == |otherIds| > 1 && DistinctIds(ids) && DistinctIds(otherIds)
    requires multiset(Flats(weights, ids)) == multiset(Flats(otherWeights, otherIds)) && id in ids
    ensures id in Apportioned(amount, weights, ids) && id in Apportioned(amount, otherWeights, otherIds)
    ensures Apportioned(amount, weights, ids)[id] == Apportioned(amount, otherWeights, otherIds)[id]
  {
    ApportionedIsShares(amount, weights, ids);
    ApportionedIsShares(amount, otherWeights, otherIds);
    var i :| 0 <= i < |ids| && ids[i] == id;
    var j := FlatIn(Flats(weights, ids), Flats(otherWeights, otherIds), i);
    assert otherIds[j] == id;
    SharesMatch(amount, weights, ids, otherWeights, otherIds, i, j);
  }

  lemma MapCarriesOver(
      amount: int, weights: seq<real>, ids: seq<string>, otherWeights: seq<real>, otherIds: seq<string>)
    requires |weights| == |ids| > 1 && |otherWeights| == |otherIds| > 1 && DistinctIds(ids) && DistinctIds(otherIds)
    requires multiset(Flats(weights, ids)) == multiset(Flats(otherWeights, otherIds))
    ensures var one, other := Apportioned(amount, weights, ids), Apportioned(amount, otherWeights, otherIds);
            forall id :: id in one ==> id in other && one[id] == other[id]
  {
    ApportionedIsShares(amount, weights, ids);
    var one, other := Apportioned(amount, weights, ids), Apportioned(amount, otherWeights, otherIds);
    forall id | id in one ensures id in other && one[id] == other[id] {
      EntriesCarryOver(amount, weights, ids, otherWeights, otherIds, id);
    }
  }

  /** Listing the same flats in another order apportions the amount to the same map. */
  lemma OrderDoesNotMatter(
      amount: int, weights: seq<real>, ids: seq<string>, otherWeights: seq<real>, otherIds: seq<string>)
    requires |weights| == |ids| && |otherWeights| == |otherIds| && DistinctIds(ids) && DistinctIds(otherIds)
    requires multiset(Flats(weights, ids)) == multiset(Flats(otherWeights, otherIds))
    ensures Apportioned(amount, weights, ids) == Apportioned(amount, otherWeights, otherIds)
  {
    var flats, shuffled := Flats(weights, ids), Flats(otherWeights, otherIds);
    assert |multiset(flats)| == |multiset(shuffled)|;
    if |ids| == 1 {
      var j := FlatIn(flats, shuffled, 0);
    } else if |ids| > 1 {
      MapCarriesOver(amount, weights, ids, otherWeights, otherIds);
      MapCarriesOver(amount, otherWeights, otherIds, weights, ids);
    }
  }
}
