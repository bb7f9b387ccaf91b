/** Sums of rounded charges, for any charge and any rounding: the arithmetic behind comparing many bills with one. */
module RoundedSums {
  import opened Numerics

  function MapReal(f: real -> real, xs: seq<real>): seq<real> {
    seq(|xs|, i requires 0 <= i < |xs| => f(xs[i]))
  }

  function MapInt(f: real -> int, xs: seq<real>): seq<int> {
    seq(|xs|, i requires 0 <= i < |xs| => f(xs[i]))
  }

  /** The sum over a list, by its last element. */
  lemma MapIntLast(f: real -> int, xs: seq<real>)
    requires xs != []
    ensures SumInt(MapInt(f, xs)) == SumInt(MapInt(f, xs[..|xs| - 1])) + f(xs[|xs| - 1])
  {
    var n := |xs| - 1;
    assert MapInt(f, xs)[..n] == MapInt(f, xs[..n]);
  }

  lemma MapRealLast(f: real -> real, xs: seq<real>)
    requires xs != []
    ensures Sum(MapReal(f, xs)) == Sum(MapReal(f, xs[..|xs| - 1])) + f(xs[|xs| - 1])
  {
    var n := |xs| - 1;
    assert MapReal(f, xs)[..n] == MapReal(f, xs[..n]);
  }

  /** `n` times `each`. */
  function Times(n: nat, each: real): real {
    if n == 0 then 0.0 else Times(n - 1, each) + each
  }

  ghost predicate NonNegative(loads: seq<real>) {
    forall i :: 0 <= i < |loads| ==> loads[i] >= 0.0
  }

  /** `paise` is the exact charge `rupees`, in paise, up to `each`. */
  ghost predicate Rounds(paise: real -> int, rupees: real -> real, each: real) {
    forall x :: x >= 0.0 ==> Abs(paise(x) as real - rupees(x) * 100.0) <= each
  }

  predicate NoDearerApart(f: real -> real, a: real, b: real) {
    f(a) + f(b) <= f(a + b)
  }

  ghost predicate Superadditive(f: real -> real) {
    f(0.0) == 0.0 && forall a, b :: a >= 0.0 && b >= 0.0 ==> NoDearerApart(f, a, b)
  }

  lemma {:induction false} SuperadditiveOverMany(f: real -> real, loads: seq<real>)
    requires Superadditive(f) && NonNegative(loads)
    ensures Sum(loads) >= 0.0 && Sum(MapReal(f, loads)) <= f(Sum(loads))
  {
    if loads != [] {
      var n := |loads| - 1;
      MapRealLast(f, loads);
      SuperadditiveOverMany(f, loads[..n]);
      assert NoDearerApart(f, Sum(loads[..n]), loads[n]);
    }
  }

  lemma {:induction false} SumsStayClose(paise: real -> int, rupees: real -> real, each: real, loads: seq<real>)
    requires Rounds(paise, rupees, each) && NonNegative(loads)
    ensures SumInt(MapInt(paise, loads)) as real <= Sum(MapReal(rupees, loads)) * 100.0 + Times(|loads|, each)
  {
    if loads != [] {
      var n := |loads| - 1;
      MapIntLast(paise, loads);
      MapRealLast(rupees, loads);
      SumsStayClose(paise, rupees, each, loads[..n]);
    }
  }

  /** Rounded separately, a superadditive charge still never costs more in parts, up to `each` for every bill. */
  lemma SplittingRounded(paise: real -> int, rupees: real -> real, each: real, loads: seq<real>)
    requires Rounds(paise, rupees, each) && Superadditive(rupees) && NonNegative(loads)
    ensures SumInt(MapInt(paise, loads)) as real <= paise(Sum(loads)) as real + Times(|loads| + 1, each)
  {
    SuperadditiveOverMany(rupees, loads);
    SumsStayClose(paise, rupees, each, loads);
  }

  // ----- A proportional levy on top -----

  predicate AddsUp(share: real -> real, a: real, b: real) {
    share(a + b) == share(a) + share(b)
  }

  predicate InOrder(share: real -> real, a: real, b: real) {
    a <= b ==> share(a) <= share(b)
  }

  /** A proportional share: additive and never decreasing. */
  ghost predicate Proportional(share: real -> real) {
    share(0.0) == 0.0 && (forall a, b :: AddsUp(share, a, b)) && forall a, b :: InOrder(share, a, b)
  }

  /** `levy` is the share of its base, rounded to the nearest unit. */
  ghost predicate Levies(levy: int -> int, share: real -> real) {
    forall e :: Abs(levy(e) as real - share(e as real)) <= 0.5
  }

  function After(levy: int -> int, base: real -> int): real -> int {
    x => levy(base(x))
  }

  lemma {:induction false} LeviesStayClose(base: real -> int, levy: int -> int, share: real -> real, loads: seq<real>)
    requires Levies(levy, share) && Proportional(share)
    ensures SumInt(MapInt(After(levy, base), loads)) as real
         <= share(SumInt(MapInt(base, loads)) as real) + Times(|loads|, 0.5)
  {
    var levied := After(levy, base);
    if loads != [] {
      var n := |loads| - 1;
      MapIntLast(base, loads);
      MapIntLast(levied, loads);
      LeviesStayClose(base, levy, share, loads[..n]);
      OneMoreLevy(
        levy, share, SumInt(MapInt(levied, loads[..n])), SumInt(MapInt(base, loads[..n])), base(loads[n]), Times(n, 0.5));
    }
  }

  lemma OneMoreLevy(levy: int -> int, share: real -> real, levied: int, parts: int, last: int, allowance: real)
    requires Levies(levy, share) && Proportional(share) && levied as real <= share(parts as real) + allowance
    ensures (levied + levy(last)) as real <= share((parts + last) as real) + allowance + 0.5
  {
    assert AddsUp(share, parts as real, last as real);
    assert Abs(levy(last) as real - share(last as real)) <= 0.5;
  }

  lemma {:induction false} SumOfParts(total: real -> int, base: real -> int, levy: int -> int, k: int, loads: seq<real>)
    requires forall x :: total(x) == base(x) + levy(base(x)) + k
    ensures SumInt(MapInt(total, loads)) as real
         == (SumInt(MapInt(base, loads)) + SumInt(MapInt(After(levy, base), loads))) as real + Times(|loads|, k as real)
  {
    var levied := After(levy, base);
    if loads != [] {
      var n := |loads| - 1;
      MapIntLast(total, loads);
      MapIntLast(base, loads);
      MapIntLast(levied, loads);
      SumOfParts(total, base, levy, k, loads[..n]);
    }
  }

  /** Together, charges and their levies exceed the bill for the total by rounding only. */
  lemma LeviedPartsAgainstWhole(
      base: real -> int, rupees: real -> real, levy: int -> int, share: real -> real, each: real, loads: seq<real>)
    requires Rounds(base, rupees, each) && Superadditive(rupees) && Levies(levy, share) && Proportional(share)
    requires NonNegative(loads)
    ensures var whole := base(Sum(loads));
            (SumInt(MapInt(base, loads)) + SumInt(MapInt(After(levy, base), loads)) - whole - levy(whole)) as real
            <= Times(|loads| + 1, each) + share(Times(|loads| + 1, each)) + Times(|loads| + 1, 0.5)
  {
    var parts, whole, allowance := SumInt(MapInt(base, loads)), base(Sum(loads)), Times(|loads| + 1, each);
    SplittingRounded(base, rupees, each, loads);
    LeviesStayClose(base, levy, share, loads);
    ShareWithAllowance(share, parts as real, whole as real, allowance);
    OneLevy(levy, share, whole);
  }

  lemma OneLevy(levy: int -> int, share: real -> real, base: int)
    requires Levies(levy, share)
    ensures levy(base) as real >= share(base as real) - 0.5
  {
    assert Abs(levy(base) as real - share(base as real)) <= 0.5;
  }

  lemma ShareWithAllowance(share: real -> real, parts: real, whole: real, allowance: real)
    requires Proportional(share) && parts <= whole + allowance
    ensures share(parts) <= share(whole) + share(allowance)
  {
    assert InOrder(share, parts, whole + allowance);
    assert AddsUp(share, whole, allowance);
  }

  /** Many bills of charge, levy and a constant `k` exceed the one bill by little more than the extra constants. */
  lemma ManyBillsAgainstOne(
      total: real -> int, base: real -> int, rupees: real -> real, levy: int -> int, share: real -> real,
      each: real, k: int, loads: seq<real>)
    requires Rounds(base, rupees, each) && Superadditive(rupees) && Levies(levy, share) && Proportional(share)
    requires forall x :: total(x) == base(x) + levy(base(x)) + k
    requires loads != [] && NonNegative(loads)
    ensures (SumInt(MapInt(total, loads)) - total(Sum(loads))) as real
         <= Times(|loads| - 1, k as real)
            + Times(|loads| + 1, each) + share(Times(|loads| + 1, each))
            + Times(|loads| + 1, 0.5)
  {
    SumOfParts(total, base, levy, k, loads);
    LeviedPartsAgainstWhole(base, rupees, levy, share, each, loads);
  }
}
