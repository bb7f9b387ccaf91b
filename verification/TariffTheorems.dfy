/** What the slab walk charges, independently of how it walks. */
module TariffTheorems {
  import opened Numerics
  import opened Wrappers
  import opened RoundedSums
  import opened Tariff

  // ----- Rounding to paise -----

  /** Nearest paisa, exact halves away from zero on both sides. */
  lemma ToPaiseIsNearest(rupees: real)
    ensures Abs(ToPaise(rupees) as real - rupees * 100.0) <= 0.5
    ensures Abs(ToPaise(rupees) as real - rupees * 100.0) == 0.5 ==> Abs(ToPaise(rupees) as real) > Abs(rupees * 100.0)
    ensures ToPaise(-rupees) == -ToPaise(rupees)
  {
  }

  /** The documented half-up rounding. */
  function HalfUp(rupees: real): int {
    (rupees * 100.0 + 0.5).Floor
  }

  predicate IsHalfPaisa(rupees: real) {
    HalfUp(rupees) as real == rupees * 100.0 + 0.5
  }

  /** Rounding meets its documentation except on negative exact halves, where it is one paisa lower. */
  lemma HalfUpExceptOnNegativeHalves(rupees: real)
    ensures ToPaise(rupees) == HalfUp(rupees) <==> !(rupees < 0.0 && IsHalfPaisa(rupees))
    ensures ToPaise(rupees) == HalfUp(rupees) - if rupees < 0.0 && IsHalfPaisa(rupees) then 1 else 0
  {
  }

  /** Minus half a paisa rounds to minus one, not to zero. */
  lemma NegativeHalfRoundsDown()
    ensures ToPaise(-0.005) == -1 && HalfUp(-0.005) == 0
  {
  }

  lemma ToPaiseExact(rupees: real, paise: int)
    requires rupees * 100.0 == paise as real
    ensures ToPaise(rupees) == paise
  {
  }

  // ----- Ladders -----

  /** Ascending ceilings from `previous` on, ending in an open slab. */
  ghost predicate OpenLadder(slabs: seq<Slab>, previous: real) {
    slabs != [] &&
    if |slabs| == 1 then slabs[0].upTo.None?
    else slabs[0].upTo.Some? && previous <= slabs[0].upTo.value && OpenLadder(slabs[1..], slabs[0].upTo.value)
  }

  function PaiseIn(slab: Slab, previous: real, x: real): int {
    ToPaise(UnitsIn(slab, previous, x) * slab.rate)
  }

  /** The paise of every band, without stopping early. */
  function BandPaise(slabs: seq<Slab>, previous: real, x: real): int {
    if slabs == [] then 0
    else
      PaiseIn(slabs[0], previous, x)
      + if slabs[0].upTo.Some? then BandPaise(slabs[1..], slabs[0].upTo.value, x) else 0
  }

  lemma {:induction false} NothingAbove(slabs: seq<Slab>, previous: real, x: real)
    requires OpenLadder(slabs, previous) && x <= previous
    ensures BandPaise(slabs, previous, x) == 0
  {
    assert UnitsIn(slabs[0], previous, x) == 0.0;
    ToPaiseExact(0.0 * slabs[0].rate, 0);
    if |slabs| > 1 {
      NothingAbove(slabs[1..], slabs[0].upTo.value, x);
    }
  }

  lemma {:induction false} PrependTotals(c: SlabCharge, rest: seq<SlabCharge>)
    ensures TotalPaise([c] + rest) == c.chargePaise + TotalPaise(rest)
    ensures TotalUnits([c] + rest) == c.units + TotalUnits(rest)
  {
    if rest == [] {
      assert [c] + rest == [c] && [c][..0] == [];
    } else {
      var n := |rest|;
      assert ([c] + rest)[..n] == [c] + rest[..n - 1];
      PrependTotals(c, rest[..n - 1]);
    }
  }

  lemma WalkTotal(slabs: seq<Slab>, previous: real, x: real)
    requires slabs != [] && (slabs[0].upTo.None? ==> |slabs| == 1)
    ensures TotalPaise(Walk(slabs, previous, x))
         == PaiseIn(slabs[0], previous, x)
            + if EndsIn(slabs[0], x) then 0 else TotalPaise(Walk(slabs[1..], slabs[0].upTo.value, x))
  {
    var rest := if EndsIn(slabs[0], x) then [] else Walk(slabs[1..], slabs[0].upTo.value, x);
    assert Walk(slabs, previous, x) == ChargeIn(slabs[0], previous, x) + rest;
    ChargeInTotals(slabs[0], previous, x, rest);
  }

  /** Stopping at the slab that holds the consumption drops no charge. */
  lemma {:induction false} EarlyBreakIsSafe(slabs: seq<Slab>, previous: real, x: real)
    requires OpenLadder(slabs, previous)
    ensures TotalPaise(Walk(slabs, previous, x)) == BandPaise(slabs, previous, x)
  {
    WalkTotal(slabs, previous, x);
    BandPaiseStep(slabs, previous, x);
    if |slabs| > 1 {
      if EndsIn(slabs[0], x) {
        NothingAbove(slabs[1..], slabs[0].upTo.value, x);
      } else {
        EarlyBreakIsSafe(slabs[1..], slabs[0].upTo.value, x);
      }
    }
  }

  lemma BandPaiseStep(slabs: seq<Slab>, previous: real, x: real)
    requires slabs != []
    ensures BandPaise(slabs, previous, x)
         == PaiseIn(slabs[0], previous, x)
            + if slabs[0].upTo.Some? then BandPaise(slabs[1..], slabs[0].upTo.value, x) else 0
  {
  }

  lemma ChargeInTotals(slab: Slab, previous: real, x: real, rest: seq<SlabCharge>)
    ensures TotalPaise(ChargeIn(slab, previous, x) + rest)
         == PaiseIn(slab, previous, x) + TotalPaise(rest)
    ensures TotalUnits(ChargeIn(slab, previous, x) + rest) == UnitsIn(slab, previous, x) + TotalUnits(rest)
  {
    var here := ChargeIn(slab, previous, x);
    if here == [] {
      assert here + rest == rest;
      ToPaiseExact(0.0 * slab.rate, 0);
    } else {
      assert here == [here[0]];
      PrependTotals(here[0], rest);
    }
  }

  // ----- The breakdown -----

  /** The billed bands tile the consumption above `previous`: each starts one unit after its predecessor ends. */
  ghost predicate Tiles(charges: seq<SlabCharge>, previous: real, x: real) {
    if charges == [] then x <= previous
    else
      && charges[0].fromUnit == previous + 1.0
      && charges[0].units > 0.0 && charges[0].toUnit == previous + charges[0].units
      && Tiles(charges[1..], charges[0].toUnit, x)
  }

  lemma {:induction false} BreakdownTiles(slabs: seq<Slab>, previous: real, x: real)
    requires OpenLadder(slabs, previous)
    ensures Tiles(Walk(slabs, previous, x), previous, x)
    ensures TotalUnits(Walk(slabs, previous, x)) == Max(0.0, x - previous)
  {
    var here := ChargeIn(slabs[0], previous, x);
    var rest := if EndsIn(slabs[0], x) then [] else Walk(slabs[1..], slabs[0].upTo.value, x);
    ChargeInTotals(slabs[0], previous, x, rest);
    if !EndsIn(slabs[0], x) {
      BreakdownTiles(slabs[1..], slabs[0].upTo.value, x);
    }
    if here == [] {
      assert here + rest == rest;
    } else {
      assert here + rest == [here[0]] + rest && ([here[0]] + rest)[1..] == rest;
    }
  }

  /** On an open ladder the billed units add up to the consumption, and a consumption at or below zero bills none. */
  lemma BilledUnitsAreConsumption(tariff: ElectricityTariff, consumption: real, kva: real)
    requires OpenLadder(tariff.slabs, 0.0)
    ensures var b := BillFor(tariff, consumption, kva);
            && Tiles(b.slabBreakdown, 0.0, Effective(consumption))
            && TotalUnits(b.slabBreakdown) == Effective(consumption)
            && (b.slabBreakdown == [] <==> consumption <= 0.0)
  {
    BreakdownTiles(tariff.slabs, 0.0, Effective(consumption));
  }

  lemma NoDuty(t: ElectricityTariff)
    ensures DutyPaise(t, 0) == 0
  {
    assert 0.0 * t.energyDutyPct == 0.0;
    assert DutyPaise(t, 0) == RoundHalfEven(0.0) == 0;
  }

  lemma FixedAndDemandAre(t: ElectricityTariff, kva: real)
    ensures FixedPaise(t) == ToPaise(t.fixedPerConnection) + ToPaise(t.fixedPerKw * t.sanctionedLoadKw)
    ensures DemandPaise(t, kva) == ToPaise(t.demandPerKva * kva)
  {
  }

  /** A connection that consumes nothing still pays its fixed, demand and cess charges, and nothing else. */
  lemma IdleConnectionPaysItsFixedCharges(tariff: ElectricityTariff, consumption: real, kva: real)
    requires OpenLadder(tariff.slabs, 0.0) && consumption <= 0.0
    ensures var b := BillFor(tariff, consumption, kva);
            && b.energyPaise == 0
            && b.fixedPaise == ToPaise(tariff.fixedPerConnection) + ToPaise(tariff.fixedPerKw * tariff.sanctionedLoadKw)
            && b.demandPaise == ToPaise(tariff.demandPerKva * kva)
            && b.totalPaise == b.fixedPaise + b.demandPaise + ToPaise(tariff.fixedCess)
  {
    BilledUnitsAreConsumption(tariff, consumption, kva);
    NoDuty(tariff);
    FixedAndDemandAre(tariff, kva);
  }

  // ----- Per-unit pricing -----

  /** Whole-unit ceilings and rates in whole paise. */
  ghost predicate Whole(slabs: seq<Slab>) {
    forall i :: 0 <= i < |slabs| ==>
      && (slabs[i].rate * 100.0).Floor as real == slabs[i].rate * 100.0
      && (slabs[i].upTo.Some? ==> slabs[i].upTo.value.Floor as real == slabs[i].upTo.value)
  }

  /** The price of the `u`th unit: the rate, in paise, of the first slab that reaches it. */
  function UnitPrice(slabs: seq<Slab>, u: int): int {
    if slabs == [] then 0
    else if EndsIn(slabs[0], u as real) then (slabs[0].rate * 100.0).Floor
    else UnitPrice(slabs[1..], u)
  }

  function UnitPrices(slabs: seq<Slab>, low: int, high: int): int
    decreases high - low
  {
    if high <= low then 0 else UnitPrices(slabs, low, high - 1) + UnitPrice(slabs, high)
  }

  lemma {:induction false} OneBand(slabs: seq<Slab>, low: int, high: int)
    requires slabs != [] && EndsIn(slabs[0], high as real) && low <= high
    ensures UnitPrices(slabs, low, high) == (high - low) * (slabs[0].rate * 100.0).Floor
    decreases high - low
  {
    if low < high {
      OneBand(slabs, low, high - 1);
      var price := (slabs[0].rate * 100.0).Floor;
      assert (high - low) * price == (high - 1 - low) * price + price;
    }
  }

  lemma {:induction false} SplitPrices(slabs: seq<Slab>, low: int, middle: int, high: int)
    requires low <= middle <= high
    ensures UnitPrices(slabs, low, high) == UnitPrices(slabs, low, middle) + UnitPrices(slabs, middle, high)
    decreases high - middle
  {
    if middle < high {
      SplitPrices(slabs, low, middle, high - 1);
    }
  }

  lemma {:induction false} SkipBand(slabs: seq<Slab>, low: int, high: int)
    requires slabs != [] && slabs[0].upTo.Some? && slabs[0].upTo.value <= low as real
    ensures UnitPrices(slabs, low, high) == UnitPrices(slabs[1..], low, high)
    decreases high - low
  {
    if low < high {
      SkipBand(slabs, low, high - 1);
    }
  }

  lemma BandExact(slab: Slab, previous: int, x: int, units: int)
    requires (slab.rate * 100.0).Floor as real == slab.rate * 100.0
    requires UnitsIn(slab, previous as real, x as real) == units as real
    ensures PaiseIn(slab, previous as real, x as real) == units * (slab.rate * 100.0).Floor
  {
    var price := (slab.rate * 100.0).Floor;
    assert units as real * slab.rate * 100.0 == units as real * (slab.rate * 100.0);
    assert (units * price) as real == units as real * price as real;
    ToPaiseExact(units as real * slab.rate, units * price);
  }

  lemma {:induction false} BandsArePriced(slabs: seq<Slab>, previous: int, n: int)
    requires OpenLadder(slabs, previous as real) && Whole(slabs)
    ensures BandPaise(slabs, previous as real, n as real) == UnitPrices(slabs, previous, n)
  {
    BandPaiseStep(slabs, previous as real, n as real);
    if n <= previous {
      NothingAbove(slabs, previous as real, n as real);
    } else if EndsIn(slabs[0], n as real) {
      OneBand(slabs, previous, n);
      BandExact(slabs[0], previous, n, n - previous);
      if |slabs| > 1 {
        NothingAbove(slabs[1..], slabs[0].upTo.value, n as real);
      }
    } else {
      var c := slabs[0].upTo.value.Floor;
      assert c as real == slabs[0].upTo.value;
      OneBand(slabs, previous, c);
      BandExact(slabs[0], previous, n, c - previous);
      SplitPrices(slabs, previous, c, n);
      SkipBand(slabs, c, n);
      BandsArePriced(slabs[1..], c, n);
    }
  }

  /** For whole units the energy charge is the sum, unit by unit, of the rate of the band each unit falls in. */
  lemma EnergyIsPerUnitPricing(tariff: ElectricityTariff, units: nat)
    requires OpenLadder(tariff.slabs, 0.0) && Whole(tariff.slabs)
    ensures EnergyPaise(tariff, units as real) == UnitPrices(tariff.slabs, 0, units)
  {
    EarlyBreakIsSafe(tariff.slabs, 0.0, units as real);
    BandsArePriced(tariff.slabs, 0, units);
  }

  // ----- Splitting a load over several connections -----

  ghost predicate NonDecreasing(slabs: seq<Slab>) {
    forall i, j :: 0 <= i < j < |slabs| ==> slabs[i].rate <= slabs[j].rate
  }

  /** The unrounded energy charge, in rupees, of everything above `previous`. */
  function Energy(slabs: seq<Slab>, previous: real, x: real): real {
    if slabs == [] then 0.0
    else
      UnitsIn(slabs[0], previous, x) * slabs[0].rate
      + if slabs[0].upTo.Some? then Energy(slabs[1..], slabs[0].upTo.value, x) else 0.0
  }

  function Over(x: real, threshold: real): real {
    Max(0.0, x - threshold)
  }

  function Kink(x: real, threshold: real, step: real): real {
    Over(x, threshold) * step
  }

  /** The charge beyond a flat rate `r` above `previous`: every slab adds its step in rate to all units over its floor. */
  function Surcharge(slabs: seq<Slab>, previous: real, r: real, x: real): real {
    if slabs == [] then 0.0
    else
      Kink(x, previous, slabs[0].rate - r)
      + if slabs[0].upTo.Some? then Surcharge(slabs[1..], slabs[0].upTo.value, slabs[0].rate, x) else 0.0
  }

  lemma KinkAlgebra(x: real, previous: real, c: real, s: real, r: real, units: real)
    requires units == Over(x, previous) - Over(x, c)
    ensures units * s + Kink(x, c, s) == Kink(x, previous, r) + Kink(x, previous, s - r)
  {
    var a, b := Over(x, previous), Over(x, c);
    assert units * s == a * s - b * s;
    assert a * (s - r) == a * s - a * r;
  }

  lemma NoKink(x: real, threshold: real, s: real)
    requires x <= threshold
    ensures Kink(x, threshold, s) == 0.0
  {
    assert Over(x, threshold) == 0.0;
  }

  lemma LastBand(slabs: seq<Slab>, previous: real, r: real, x: real)
    requires |slabs| == 1 && slabs[0].upTo.None?
    ensures Energy(slabs, previous, x) == Over(x, previous) * slabs[0].rate
    ensures Surcharge(slabs, previous, r, x) == Kink(x, previous, slabs[0].rate - r)
  {
  }

  /** Band by band charging is flat-rate charging plus the surcharges of the steps in rate. */
  lemma {:induction false} EnergyIsKinked(slabs: seq<Slab>, previous: real, r: real, x: real)
    requires OpenLadder(slabs, previous)
    ensures Energy(slabs, previous, x) == Kink(x, previous, r) + Surcharge(slabs, previous, r, x)
  {
    var units, s := UnitsIn(slabs[0], previous, x), slabs[0].rate;
    if |slabs| == 1 {
      LastBand(slabs, previous, r, x);
      NoKink(x, Max(x, previous), s);
      KinkAlgebra(x, previous, Max(x, previous), s, r, Over(x, previous));
    } else {
      var c := slabs[0].upTo.value;
      EnergyIsKinked(slabs[1..], c, s, x);
      KinkAlgebra(x, previous, c, s, r, units);
    }
  }

  lemma KinkSuperadditive(a: real, b: real, threshold: real, step: real)
    requires a >= 0.0 && b >= 0.0 && threshold >= 0.0 && step >= 0.0
    ensures Kink(a, threshold, step) + Kink(b, threshold, step) <= Kink(a + b, threshold, step)
  {
    var x, y, z := Over(a, threshold), Over(b, threshold), Over(a + b, threshold);
    assert (z - x - y) * step >= 0.0;
    assert (z - x - y) * step == z * step - x * step - y * step;
  }

  lemma {:induction false} SurchargeSuperadditive(slabs: seq<Slab>, previous: real, r: real, a: real, b: real)
    requires OpenLadder(slabs, previous) && NonDecreasing(slabs) && previous >= 0.0
    requires r <= slabs[0].rate && a >= 0.0 && b >= 0.0
    ensures Surcharge(slabs, previous, r, a) + Surcharge(slabs, previous, r, b) <= Surcharge(slabs, previous, r, a + b)
  {
    KinkSuperadditive(a, b, previous, slabs[0].rate - r);
    if |slabs| > 1 {
      SurchargeSuperadditive(slabs[1..], slabs[0].upTo.value, slabs[0].rate, a, b);
    }
  }

  /** Two loads on one connection never cost less, before rounding, than on two: the tariff is convex and free at zero. */
  lemma EnergySuperadditive(slabs: seq<Slab>, a: real, b: real)
    requires OpenLadder(slabs, 0.0) && NonDecreasing(slabs) && a >= 0.0 && b >= 0.0
    ensures Energy(slabs, 0.0, a) + Energy(slabs, 0.0, b) <= Energy(slabs, 0.0, a + b)
  {
    var r := slabs[0].rate;
    EnergyIsKinked(slabs, 0.0, r, a);
    EnergyIsKinked(slabs, 0.0, r, b);
    EnergyIsKinked(slabs, 0.0, r, a + b);
    SurchargeSuperadditive(slabs, 0.0, r, a, b);
    KinkAdditive(a, b, r);
  }

  lemma KinkAdditive(a: real, b: real, r: real)
    requires a >= 0.0 && b >= 0.0
    ensures Kink(a, 0.0, r) + Kink(b, 0.0, r) == Kink(a + b, 0.0, r)
  {
    assert (a + b) * r == a * r + b * r;
  }

  lemma {:induction false} NothingUsed(slabs: seq<Slab>, previous: real, x: real)
    requires OpenLadder(slabs, previous) && x <= previous
    ensures Energy(slabs, previous, x) == 0.0
  {
    if |slabs| > 1 {
      NothingUsed(slabs[1..], slabs[0].upTo.value, x);
    }
  }

  lemma TariffIsSuperadditive(slabs: seq<Slab>)
    requires OpenLadder(slabs, 0.0) && NonDecreasing(slabs)
    ensures Superadditive(x => Energy(slabs, 0.0, x))
  {
    NothingUsed(slabs, 0.0, 0.0);
    var f := x => Energy(slabs, 0.0, x);
    forall a, b | a >= 0.0 && b >= 0.0 ensures NoDearerApart(f, a, b) {
      EnergySuperadditive(slabs, a, b);
    }
  }

  /** Over any number of connections: separate billing never costs more than billing the total on one. */
  lemma SplittingNeverCostsMore(slabs: seq<Slab>, loads: seq<real>)
    requires OpenLadder(slabs, 0.0) && NonDecreasing(slabs) && NonNegative(loads)
    ensures Sum(MapReal(x => Energy(slabs, 0.0, x), loads)) <= Energy(slabs, 0.0, Sum(loads))
  {
    TariffIsSuperadditive(slabs);
    SuperadditiveOverMany(x => Energy(slabs, 0.0, x), loads);
  }

  /** Half a paisa per slab. */
  function SlabAllowance(slabs: nat): real {
    0.5 * slabs as real
  }

  /** Rounding moves the energy charge by at most half a paisa per slab. */
  lemma {:induction false} RoundingBound(slabs: seq<Slab>, previous: real, x: real)
    ensures Abs(BandPaise(slabs, previous, x) as real - Energy(slabs, previous, x) * 100.0) <= SlabAllowance(|slabs|)
  {
    if slabs != [] {
      BandPaiseStep(slabs, previous, x);
      ToPaiseIsNearest(UnitsIn(slabs[0], previous, x) * slabs[0].rate);
      if slabs[0].upTo.Some? {
        RoundingBound(slabs[1..], slabs[0].upTo.value, x);
      }
    }
  }

  lemma BillsRound(t: ElectricityTariff)
    requires OpenLadder(t.slabs, 0.0)
    ensures Rounds(x => EnergyPaise(t, x), x => Energy(t.slabs, 0.0, x), SlabAllowance(|t.slabs|))
  {
    forall x | x >= 0.0
      ensures Abs(EnergyPaise(t, x) as real - Energy(t.slabs, 0.0, x) * 100.0) <= SlabAllowance(|t.slabs|)
    {
      EarlyBreakIsSafe(t.slabs, 0.0, x);
      RoundingBound(t.slabs, 0.0, x);
    }
  }

  /** In paise the same holds up to half a paisa per slab and bill: 1.5 paise per slab for two connections. */
  lemma SplittingInPaise(t: ElectricityTariff, loads: seq<real>)
    requires OpenLadder(t.slabs, 0.0) && NonDecreasing(t.slabs) && NonNegative(loads)
    ensures SumInt(MapInt(x => EnergyPaise(t, x), loads)) as real
         <= EnergyPaise(t, Sum(loads)) as real + Times(|loads| + 1, SlabAllowance(|t.slabs|))
  {
    TariffIsSuperadditive(t.slabs);
    BillsRound(t);
    SplittingRounded(x => EnergyPaise(t, x), x => Energy(t.slabs, 0.0, x), SlabAllowance(|t.slabs|), loads);
  }
}
