/** Who gets the odd paisa, and how far any flat can be from its part, for the published map. */
module ApportionmentTies {
  import opened Numerics
  import opened Wrappers
  import opened Apportionment
  import opened ApportionmentTheorems
  import opened ApportionmentOrder
  import L = Lexicographic
  import S = StableSort

  // ----- Ties -----

  /** Python's order of strings: a proper prefix first, else by the first character that differs. */
  ghost predicate ComesBefore(a: string, b: string) {
    exists k :: 0 <= k <= |a| && k < |b| && a[..k] == b[..k] && (k == |a| || a[k] < b[k])
  }

  lemma ComesBeforeIsLess(a: string, b: string)
    ensures ComesBefore(a, b) <==> StringLess(a, b)
  {
    L.LessMeans(CodePoint, a, b);
    if ComesBefore(a, b) {
      var k :| 0 <= k <= |a| && k < |b| && a[..k] == b[..k] && (k == |a| || a[k] < b[k]);
      assert L.DiffersAt(CodePoint, a, b, k);
    }
    if StringLess(a, b) {
      var k: nat :| L.DiffersAt(CodePoint, a, b, k);
      assert a[..k] == b[..k];
    }
  }

  /** Of two claims with equal ideal shares, the smaller id is ahead: it never gets less, and at most a paisa more. */
  lemma TiesGoToSmallerId(amount: int, claims: seq<Claim>, i: nat, j: nat)
    requires i < |claims| && j < |claims|
    requires claims[i].ideal == claims[j].ideal && ComesBefore(claims[i].id, claims[j].id)
    ensures 0 <= Shares(amount, claims)[i] - Shares(amount, claims)[j] <= 1
  {
    ComesBeforeIsLess(claims[i].id, claims[j].id);
    KeysAreOrdered(claims);
    assert S.Ahead(Keys(claims), i, j);
    S.RankMonotone(Keys(claims), |claims|, |claims|, i, j);
    LargerIdealLargerShare(amount, claims, i, j);
  }

  /** The same for equal remainders over equal base shares, as computed ideals may leave them. */
  lemma EqualRemaindersGoToSmallerId(amount: int, claims: seq<Claim>, i: nat, j: nat)
    requires i < |claims| && j < |claims|
    requires Base(claims[i]) == Base(claims[j]) && Remainder(claims[i]) == Remainder(claims[j])
    requires ComesBefore(claims[i].id, claims[j].id)
    ensures 0 <= Shares(amount, claims)[i] - Shares(amount, claims)[j] <= 1
  {
    TiesGoToSmallerId(amount, claims, i, j);
  }

  /**
    In the published map, of two flats of equal weight the one whose id comes first never has less, and has at
    most a paisa more, whether the amount is charged or refunded.
   */
  lemma EqualFlatsInMap(amount: int, weights: seq<real>, ids: seq<string>, i: nat, j: nat)
    requires |weights| == |ids| > 1 && DistinctIds(ids) && i < |ids| && j < |ids|
    requires weights[i] == weights[j] && ComesBefore(ids[i], ids[j])
    ensures var m := Apportioned(amount, weights, ids);
            ids[i] in m && ids[j] in m && 0 <= m[ids[i]] - m[ids[j]] <= 1
  {
    var claims := ExactClaims(amount, weights, ids);
    ExactIdeal(amount, weights, ids, i);
    ExactIdeal(amount, weights, ids, j);
    TiesGoToSmallerId(amount, claims, i, j);
    ApportionedIsShares(amount, weights, ids);
  }

  lemma TwoShares(shares: seq<int>)
    requires |shares| == 2
    ensures SumInt(shares) == shares[0] + shares[1]
  {
    assert shares[..1] == [shares[0]] && shares[..1][..0] == [];
    assert SumInt(shares[..1]) == SumInt([]) + shares[0];
  }

  lemma FirstLetters()
    ensures ComesBefore("a", "b")
  {
    assert "a"[..0] == "b"[..0];
  }

  /** An odd amount over two equal flats: the odd paisa goes to the id that comes first. */
  lemma OddPaisaGoesFirst(amount: int, ids: seq<string>)
    requires |ids| == 2 && ComesBefore(ids[0], ids[1]) && ids[0] != ids[1] && amount % 2 == 1
    ensures var m := Apportioned(amount, [1.0, 1.0], ids);
            ids[0] in m && ids[1] in m && m[ids[0]] == m[ids[1]] + 1 && m[ids[0]] + m[ids[1]] == amount
  {
    EqualFlatsInMap(amount, [1.0, 1.0], ids, 0, 1);
    TwoFlatsInMap(amount, [1.0, 1.0], ids);
  }

  lemma TwoFlatsInMap(amount: int, weights: seq<real>, ids: seq<string>)
    requires |weights| == |ids| == 2 && DistinctIds(ids)
    ensures var m := Apportioned(amount, weights, ids);
            ids[0] in m && ids[1] in m && m[ids[0]] + m[ids[1]] == amount
  {
    var claims := ExactClaims(amount, weights, ids);
    ApportionedIsShares(amount, weights, ids);
    ExactIdealsSum(amount, weights, ids);
    PerturbedSharesStillSum(amount, claims);
    TwoShares(Shares(amount, claims));
  }

  /** One paisa over two equal flats. */
  lemma OnePaisaOverTwoFlats()
    ensures var m := Apportioned(1, [1.0, 1.0], ["a", "b"]); "a" in m && "b" in m && m["a"] == 1 && m["b"] == 0
  {
    FirstLetters();
    OddPaisaGoesFirst(1, ["a", "b"]);
  }

  // ----- Quota, in figures -----

  /** `x` is strictly within one of the part of `a` that `w` of `total` makes. */
  predicate WithinOneOfPart(x: real, a: real, w: real, total: real) {
    Abs(x * total - a * w) < total
  }

  lemma LessThanWhole(off: real, total: real)
    requires total > 0.0 && Abs(off) < 1.0
    ensures -total < off * total < total
  {
    FactorSign(1.0 - off, total);
    FactorSign(1.0 + off, total);
    assert (1.0 - off) * total == total - off * total && (1.0 + off) * total == total + off * total;
  }

  lemma DifferenceTimes(off: real, x: real, y: real, total: real)
    requires off == x - y
    ensures off * total == x * total - y * total
  {
  }

  lemma QuotaOfIdeal(share: real, ideal: real, a: real, w: real, total: real)
    requires total > 0.0 && Abs(share - ideal) < 1.0 && ideal == IdealOf(a, w, total)
    ensures WithinOneOfPart(share, a, w, total)
  {
    QuotientTimes(a * w, total, ideal);
    var off := share - ideal;
    LessThanWhole(off, total);
    DifferenceTimes(off, share, ideal, total);
    AbsBelow(share * total - a * w, off * total, total);
  }

  lemma AbsBelow(x: real, y: real, bound: real)
    requires x == y && -bound < y < bound
    ensures Abs(x) < bound
  {
  }

  lemma QuotaOfShare(amount: int, weights: seq<real>, ids: seq<string>, i: nat)
    requires |weights| == |ids| && i < |ids|
    ensures WithinOneOfPart(
              Shares(amount, ExactClaims(amount, weights, ids))[i] as real, amount as real, Weights(weights, |ids|)[i],
              TotalWeight(weights, |ids|))
  {
    var claims := ExactClaims(amount, weights, ids);
    ExactIdealsSum(amount, weights, ids);
    QuotaHolds(amount, claims, i);
    ExactIdeal(amount, weights, ids, i);
    QuotaOfIdeal(
      Shares(amount, claims)[i] as real, claims[i].ideal, amount as real, Weights(weights, |ids|)[i],
      TotalWeight(weights, |ids|));
  }

  /**
    Every flat's entry in the published map is strictly within a paisa of its part of the amount: by weight
    when the weights have a positive sum, and else an equal part.
   */
  lemma QuotaInMap(amount: int, weights: seq<real>, ids: seq<string>, i: nat)
    requires |weights| == |ids| > 1 && DistinctIds(ids) && i < |ids|
    ensures ids[i] in Apportioned(amount, weights, ids)
    ensures var x := Apportioned(amount, weights, ids)[ids[i]] as real;
            if Sum(weights) > 0.0 then WithinOneOfPart(x, amount as real, weights[i], Sum(weights))
            else WithinOneOfPart(x, amount as real, 1.0, |ids| as real)
  {
    QuotaOfShare(amount, weights, ids, i);
    ApportionedIsShares(amount, weights, ids);
  }
}
