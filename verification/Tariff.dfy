/** Telescoping-slab electricity tariffs, exact to the paise. */
module Tariff {
  import opened Numerics
  import opened RoundedSums
  import opened Wrappers

  /** One band of the ladder; no ceiling means open-ended. */
  datatype Slab = Slab(upTo: Option<real>, rate: real)

  datatype ElectricityTariff = ElectricityTariff(
    slabs: seq<Slab>,
    fixedPerConnection: real,
    fixedPerKw: real,
    sanctionedLoadKw: real,
    energyDutyPct: real,
    fixedCess: real,
    demandPerKva: real)

  datatype SlabCharge = SlabCharge(fromUnit: real, toUnit: real, units: real, rate: real, chargePaise: int)

  datatype Bill = Bill(
    consumption: real, energyPaise: int, slabBreakdown: seq<SlabCharge>,
    fixedPaise: int, demandPaise: int, dutyCessPaise: int, totalPaise: int)

  function ToPaise(rupees: real): int {
    Trunc(rupees * 100.0 + if rupees >= 0.0 then 0.5 else -0.5)
  }

  // ----- The walk over the slabs -----

  function Below(x: real, ceiling: Option<real>): real {
    if ceiling.Some? then Min(x, ceiling.value) else x
  }

  function UnitsIn(slab: Slab, previous: real, x: real): real {
    Max(0.0, Below(x, slab.upTo) - previous)
  }

  predicate EndsIn(slab: Slab, x: real) {
    slab.upTo.None? || x <= slab.upTo.value
  }

  function ChargeFor(slab: Slab, previous: real, units: real): SlabCharge {
    SlabCharge(previous + 1.0, previous + units, units, slab.rate, ToPaise(units * slab.rate))
  }

  function ChargeIn(slab: Slab, previous: real, x: real): seq<SlabCharge> {
    var units := UnitsIn(slab, previous, x);
    if units > 0.0 then [ChargeFor(slab, previous, units)] else []
  }

  /** The charges from `slabs` on, when everything up to `previous` is billed already. */
  function Walk(slabs: seq<Slab>, previous: real, x: real): seq<SlabCharge> {
    if slabs == [] then []
    else
      ChargeIn(slabs[0], previous, x)
      + if EndsIn(slabs[0], x) then [] else Walk(slabs[1..], slabs[0].upTo.value, x)
  }

  function TotalPaise(charges: seq<SlabCharge>): int {
    if charges == [] then 0 else TotalPaise(charges[..|charges| - 1]) + charges[|charges| - 1].chargePaise
  }

  function TotalUnits(charges: seq<SlabCharge>): real {
    if charges == [] then 0.0 else TotalUnits(charges[..|charges| - 1]) + charges[|charges| - 1].units
  }

  function Effective(consumption: real): real {
    Max(0.0, consumption)
  }

  function EnergyPaise(tariff: ElectricityTariff, consumption: real): int {
    TotalPaise(Walk(tariff.slabs, 0.0, Effective(consumption)))
  }

  function FixedPaise(tariff: ElectricityTariff): int {
    ToPaise(tariff.fixedPerConnection) + ToPaise(tariff.fixedPerKw * tariff.sanctionedLoadKw)
  }

  function DutyPaise(tariff: ElectricityTariff, energyPaise: int): int {
    RoundHalfEven(energyPaise as real * tariff.energyDutyPct / 100.0)
  }

  function DemandPaise(tariff: ElectricityTariff, contractDemandKva: real): int {
    ToPaise(tariff.demandPerKva * contractDemandKva)
  }

  function DutyAndCessPaise(tariff: ElectricityTariff, energyPaise: int): int {
    DutyPaise(tariff, energyPaise) + ToPaise(tariff.fixedCess)
  }

  /** A bill of four amounts and their sum. */
  function BillOf(consumption: real, breakdown: seq<SlabCharge>, fixed: int, demand: int, dutyCess: int): Bill {
    var energy := TotalPaise(breakdown);
    Bill(consumption, energy, breakdown, fixed, demand, dutyCess, energy + fixed + demand + dutyCess)
  }

  function BillFor(tariff: ElectricityTariff, consumption: real, contractDemandKva: real): Bill {
    BillOf(
      consumption, Walk(tariff.slabs, 0.0, Effective(consumption)), FixedPaise(tariff),
      DemandPaise(tariff, contractDemandKva), DutyAndCessPaise(tariff, EnergyPaise(tariff, consumption)))
  }

  lemma TotalPaiseAppend(charges: seq<SlabCharge>, c: SlabCharge)
    ensures TotalPaise(charges + [c]) == TotalPaise(charges) + c.chargePaise
    ensures TotalUnits(charges + [c]) == TotalUnits(charges) + c.units
  {
    assert (charges + [c])[..|charges|] == charges;
  }

  lemma WalkStep(breakdown: seq<SlabCharge>, slabs: seq<Slab>, i: nat, previous: real, x: real)
    requires i < |slabs|
    ensures breakdown + Walk(slabs[i..], previous, x)
         == (breakdown + ChargeIn(slabs[i], previous, x))
            + if EndsIn(slabs[i], x) then [] else Walk(slabs[i + 1..], slabs[i].upTo.value, x)
  {
    assert slabs[i..][1..] == slabs[i + 1..];
    var rest := if EndsIn(slabs[i], x) then [] else Walk(slabs[i + 1..], slabs[i].upTo.value, x);
    assert Walk(slabs[i..], previous, x) == ChargeIn(slabs[i], previous, x) + rest;
  }

  /** The billing loop: accumulates charge by charge and stops at the slab that holds the consumption. */
  method SlabCharges(slabs: seq<Slab>, x: real) returns (breakdown: seq<SlabCharge>, energyPaise: int)
    ensures breakdown == Walk(slabs, 0.0, x) && energyPaise == TotalPaise(breakdown)
  {
    breakdown, energyPaise := [], 0;
    var previousUpTo := 0.0;
    assert slabs[0..] == slabs;
    for i := 0 to |slabs|
      invariant breakdown + Walk(slabs[i..], previousUpTo, x) == Walk(slabs, 0.0, x)
      invariant energyPaise == TotalPaise(breakdown)
    {
      var slab := slabs[i];
      ghost var before := breakdown;
      WalkStep(before, slabs, i, previousUpTo, x);
      breakdown, energyPaise := AddCharge(breakdown, energyPaise, slab, previousUpTo, x);
      if slab.upTo.None? || x <= slab.upTo.value {
        return;
      }
      previousUpTo := slab.upTo.value;
    }
  }

  /** Bills the part of `x` inside the band of `slab`, if there is any. */
  method AddCharge(breakdown: seq<SlabCharge>, energyPaise: int, slab: Slab, previousUpTo: real, x: real)
    returns (newBreakdown: seq<SlabCharge>, newEnergyPaise: int)
    requires energyPaise == TotalPaise(breakdown)
    ensures newBreakdown == breakdown + ChargeIn(slab, previousUpTo, x)
    ensures newEnergyPaise == TotalPaise(newBreakdown)
  {
    newBreakdown, newEnergyPaise := breakdown, energyPaise;
    var units := Max(0.0, Below(x, slab.upTo) - previousUpTo);
    if units > 0.0 {
      var charge := ChargeFor(slab, previousUpTo, units);
      TotalPaiseAppend(breakdown, charge);
      newBreakdown := newBreakdown + [charge];
      newEnergyPaise := newEnergyPaise + charge.chargePaise;
    }
  }

  method ComputeTariff(tariff: ElectricityTariff, consumption: real, contractDemandKva: real) returns (bill: Bill)
    ensures bill == BillFor(tariff, consumption, contractDemandKva)
  {
    var breakdown, energyPaise := SlabCharges(tariff.slabs, Effective(consumption));
    var fixedPaise := FixedPaise(tariff);
    var demandPaise := DemandPaise(tariff, contractDemandKva);
    var dutyCessPaise := DutyAndCessPaise(tariff, energyPaise);
    bill := Bill(consumption, energyPaise, breakdown, fixedPaise, demandPaise, dutyCessPaise,
                 energyPaise + fixedPaise + demandPaise + dutyCessPaise);
  }

  // ----- HT bulk against individual LT connections -----

  datatype Comparison = Comparison(
    htBulkPaise: int, ltAggregatePaise: int, savingPaise: int, savingPct: real, recoverablePaise: int)

  /** The bill of an LT connection, as a function of its load: no demand is contracted. */
  function LtBill(t: ElectricityTariff): real -> int {
    x => BillFor(t, x, 0.0).totalPaise
  }

  /** Every flat, and the common area, on an LT connection of its own. */
  function LtAggregate(flats: seq<real>, commonKwh: real, lt: ElectricityTariff): int {
    SumInt(MapInt(LtBill(lt), flats)) + LtBill(lt)(commonKwh)
  }

  /** The contract demand that an HT connection for `htKwh` is sized for. */
  function ContractDemand(htKwh: real): real {
    Max(45.0, htKwh / 24.0 / 30.0 * 1.15)
  }

  function HtBill(ht: ElectricityTariff, htKwh: real): int {
    BillFor(ht, htKwh, ContractDemand(htKwh)).totalPaise
  }

  /** One HT connection for the whole load. */
  function HtBulk(flats: seq<real>, commonKwh: real, ht: ElectricityTariff): int {
    HtBill(ht, Sum(flats) + commonKwh)
  }

  function AllowedOverhead(htPaise: int, marginCap: real, overheadPct: real): int {
    var capPaise := RoundHalfEven(htPaise as real * marginCap);
    var wantedPaise := RoundHalfEven(htPaise as real * overheadPct / 100.0);
    if wantedPaise <= capPaise then wantedPaise else capPaise
  }

  function Compared(htPaise: int, ltPaise: int, marginCap: real, overheadPct: real): Comparison {
    var saving := ltPaise - htPaise;
    Comparison(
      htPaise, ltPaise, saving,
      if ltPaise > 0 then saving as real / ltPaise as real * 100.0 else 0.0,
      saving + AllowedOverhead(htPaise, marginCap, overheadPct))
  }

  function CompareHtVsLt(
      flats: seq<real>, commonKwh: real, lt: ElectricityTariff, ht: ElectricityTariff,
      marginCap: real, overheadPct: real): Comparison
  {
    Compared(HtBulk(flats, commonKwh, ht), LtAggregate(flats, commonKwh, lt), marginCap, overheadPct)
  }
}
