/** Where the saving of a bulk connection can come from. */
module TariffComparison {
  import opened Numerics
  import opened Wrappers
  import opened RoundedSums
  import opened Tariff
  import opened TariffTheorems

  /** What every connection is billed whatever it consumes, apart from a demand charge. */
  function ConnectionPaise(t: ElectricityTariff): int {
    FixedPaise(t) + ToPaise(t.fixedCess)
  }

  lemma BillParts(t: ElectricityTariff, x: real, kva: real)
    ensures BillFor(t, x, 0.0).totalPaise == EnergyPaise(t, x) + DutyPaise(t, EnergyPaise(t, x)) + ConnectionPaise(t)
    ensures BillFor(t, x, kva).totalPaise == BillFor(t, x, 0.0).totalPaise + DemandPaise(t, kva)
  {
    ToPaiseExact(t.demandPerKva * 0.0, 0);
  }

  /** The exact duty on `energy`, before rounding. */
  function Duty(t: ElectricityTariff, energy: real): real {
    energy * t.energyDutyPct / 100.0
  }

  lemma DutyIsLevied(t: ElectricityTariff)
    ensures Levies(e => DutyPaise(t, e), x => Duty(t, x))
  {
    forall e: int ensures Abs(DutyPaise(t, e) as real - Duty(t, e as real)) <= 0.5 {
      RoundHalfEvenIsNearest(Duty(t, e as real));
    }
  }

  lemma DutyIsProportional(t: ElectricityTariff)
    requires t.energyDutyPct >= 0.0
    ensures Proportional(x => Duty(t, x))
  {
    var share := x => Duty(t, x);
    forall a, b ensures AddsUp(share, a, b) {
      assert (a + b) * t.energyDutyPct == a * t.energyDutyPct + b * t.energyDutyPct;
    }
    forall a, b ensures InOrder(share, a, b) {
      if a <= b {
        assert (b - a) * t.energyDutyPct >= 0.0;
        assert (b - a) * t.energyDutyPct == b * t.energyDutyPct - a * t.energyDutyPct;
      }
    }
  }

  lemma LtSide(flats: seq<real>, commonKwh: real, t: ElectricityTariff)
    ensures LtAggregate(flats, commonKwh, t) == SumInt(MapInt(LtBill(t), flats + [commonKwh]))
  {
    assert MapInt(LtBill(t), flats + [commonKwh])[..|flats|] == MapInt(LtBill(t), flats);
  }

  lemma HtSide(t: ElectricityTariff, htKwh: real)
    ensures HtBill(t, htKwh) == LtBill(t)(htKwh) + DemandPaise(t, ContractDemand(htKwh))
  {
    BillParts(t, htKwh, ContractDemand(htKwh));
  }

  /** Both sides of the comparison bill by the same function of the load; only bulk pays for demand on top. */
  lemma SidesOfComparison(flats: seq<real>, commonKwh: real, lt: ElectricityTariff, ht: ElectricityTariff)
    ensures LtAggregate(flats, commonKwh, lt) == SumInt(MapInt(LtBill(lt), flats + [commonKwh]))
    ensures HtBulk(flats, commonKwh, ht)
         == LtBill(ht)(Sum(flats + [commonKwh])) + DemandPaise(ht, ContractDemand(Sum(flats + [commonKwh])))
  {
    LtSide(flats, commonKwh, lt);
    SumAppend(flats, commonKwh);
    HtSide(ht, Sum(flats) + commonKwh);
  }

  lemma TotalIsSumOfParts(t: ElectricityTariff)
    ensures forall x :: LtBill(t)(x) == EnergyPaise(t, x) + DutyPaise(t, EnergyPaise(t, x)) + ConnectionPaise(t)
  {
    forall x ensures LtBill(t)(x) == EnergyPaise(t, x) + DutyPaise(t, EnergyPaise(t, x)) + ConnectionPaise(t) {
      BillParts(t, x, 0.0);
    }
  }

  /** What a bulk connection can save under tariff `t` when `n` other connections are given up, rounding included. */
  function SavingBound(t: ElectricityTariff, n: nat): real {
    Times(n, ConnectionPaise(t) as real)
    + Times(n + 2, SlabAllowance(|t.slabs|)) + Duty(t, Times(n + 2, SlabAllowance(|t.slabs|)))
    + Times(n + 2, 0.5)
  }

  /** The bills of all loads, each on a connection of its own, against one bill for the whole load. */
  lemma SeparateBillsAgainstOne(loads: seq<real>, t: ElectricityTariff)
    requires OpenLadder(t.slabs, 0.0) && NonDecreasing(t.slabs) && t.energyDutyPct >= 0.0
    requires loads != [] && NonNegative(loads)
    ensures (SumInt(MapInt(LtBill(t), loads)) - LtBill(t)(Sum(loads))) as real
         <= SavingBound(t, |loads| - 1)
  {
    TotalIsSumOfParts(t);
    TariffIsSuperadditive(t.slabs);
    BillsRound(t);
    DutyIsLevied(t);
    DutyIsProportional(t);
    ManyBillsAgainstOne(
      LtBill(t), x => EnergyPaise(t, x), x => Energy(t.slabs, 0.0, x),
      e => DutyPaise(t, e), x => Duty(t, x), SlabAllowance(|t.slabs|), ConnectionPaise(t), loads);
  }

  lemma DemandIsNotNegative(t: ElectricityTariff, htKwh: real)
    requires t.demandPerKva >= 0.0
    ensures DemandPaise(t, ContractDemand(htKwh)) >= 0
  {
    assert t.demandPerKva * ContractDemand(htKwh) >= 0.0;
  }

  /**
    Under one and the same tariff with non-decreasing rates, a bulk connection saves at most the charges of
    the connections it replaces, up to rounding: slabs and demand charge only ever punish bulk.
   */
  lemma BulkSavesOnlyConnectionCharges(flats: seq<real>, commonKwh: real, t: ElectricityTariff)
    requires OpenLadder(t.slabs, 0.0) && NonDecreasing(t.slabs) && t.demandPerKva >= 0.0 && t.energyDutyPct >= 0.0
    requires NonNegative(flats) && commonKwh >= 0.0
    ensures (LtAggregate(flats, commonKwh, t) - HtBulk(flats, commonKwh, t)) as real <= SavingBound(t, |flats|)
  {
    var loads := flats + [commonKwh];
    SidesOfComparison(flats, commonKwh, t, t);
    SeparateBillsAgainstOne(loads, t);
    DemandIsNotNegative(t, Sum(loads));
  }

  /**
    The reported saving, whatever the HT tariff: at most the LT charges of the connections given up, and what
    the bulk load costs less under the HT tariff than it would under the LT tariff.
   */
  lemma SavingHasTwoSources(
      flats: seq<real>, commonKwh: real, lt: ElectricityTariff, ht: ElectricityTariff, marginCap: real, overheadPct: real)
    requires OpenLadder(lt.slabs, 0.0) && NonDecreasing(lt.slabs) && lt.demandPerKva >= 0.0 && lt.energyDutyPct >= 0.0
    requires NonNegative(flats) && commonKwh >= 0.0
    ensures CompareHtVsLt(flats, commonKwh, lt, ht, marginCap, overheadPct).savingPaise as real
         <= SavingBound(lt, |flats|) + (HtBulk(flats, commonKwh, lt) - HtBulk(flats, commonKwh, ht)) as real
  {
    var own, bulkLt, bulkHt := LtAggregate(flats, commonKwh, lt), HtBulk(flats, commonKwh, lt), HtBulk(flats, commonKwh, ht);
    BulkSavesOnlyConnectionCharges(flats, commonKwh, lt);
  }

  // ----- The recoverable saving -----

  /** The overhead that the cap and the wanted percentage leave, before rounding. */
  function Overhead(htPaise: int, marginCap: real, overheadPct: real): real {
    Min(htPaise as real * marginCap, htPaise as real * overheadPct / 100.0)
  }

  lemma RoundedMin(cap: real, wanted: real)
    ensures RoundHalfEven(Min(cap, wanted))
         == if RoundHalfEven(wanted) <= RoundHalfEven(cap) then RoundHalfEven(wanted) else RoundHalfEven(cap)
  {
    if cap <= wanted {
      RoundHalfEvenMonotone(cap, wanted);
    } else {
      RoundHalfEvenMonotone(wanted, cap);
    }
  }

  /** The lesser of the cap and the wanted overhead is rounded once. */
  lemma OverheadIsRoundedOnce(htPaise: int, marginCap: real, overheadPct: real)
    ensures AllowedOverhead(htPaise, marginCap, overheadPct) == RoundHalfEven(Overhead(htPaise, marginCap, overheadPct))
  {
    RoundedMin(htPaise as real * marginCap, htPaise as real * overheadPct / 100.0);
  }

  lemma OverheadIsNotNegative(htPaise: int, marginCap: real, overheadPct: real)
    requires htPaise >= 0 && marginCap >= 0.0 && overheadPct >= 0.0
    ensures Overhead(htPaise, marginCap, overheadPct) >= 0.0
  {
    ProductNotNegative(htPaise as real, marginCap);
    ProductNotNegative(htPaise as real, overheadPct);
  }

  /**
    What may be recovered is the whole saving and, on top, the lesser of the capped and the wanted overhead,
    to the nearest paisa.  The cap never claws back the saving itself, as long as it and the overhead are not
    negative.
   */
  lemma RecoverableIsSavingPlusOverhead(htPaise: int, ltPaise: int, marginCap: real, overheadPct: real)
    ensures var c, overhead := Compared(htPaise, ltPaise, marginCap, overheadPct), Overhead(htPaise, marginCap, overheadPct);
            && c.savingPaise == ltPaise - htPaise
            && c.recoverablePaise - c.savingPaise == RoundHalfEven(overhead)
            && Abs((c.recoverablePaise - c.savingPaise) as real - overhead) <= 0.5
            && (htPaise >= 0 && marginCap >= 0.0 && overheadPct >= 0.0 ==> c.recoverablePaise >= c.savingPaise)
  {
    OverheadIsRoundedOnce(htPaise, marginCap, overheadPct);
    RoundHalfEvenIsNearest(Overhead(htPaise, marginCap, overheadPct));
    if htPaise >= 0 && marginCap >= 0.0 && overheadPct >= 0.0 {
      OverheadIsNotNegative(htPaise, marginCap, overheadPct);
      RoundedNotNegative(Overhead(htPaise, marginCap, overheadPct));
    }
  }

  /** The reported percentage is the saving's share of what the LT connections are billed. */
  lemma SavingPctIsShareOfLt(htPaise: int, ltPaise: int, marginCap: real, overheadPct: real)
    requires ltPaise > 0
    ensures var c := Compared(htPaise, ltPaise, marginCap, overheadPct);
            c.savingPct * ltPaise as real == c.savingPaise as real * 100.0
  {
    PercentageOf((ltPaise - htPaise) as real, ltPaise as real);
  }

  lemma ProductNotNegative(a: real, b: real)
    requires a >= 0.0 && b >= 0.0
    ensures a * b >= 0.0
  {
  }

  lemma RoundedNotNegative(x: real)
    requires x >= 0.0
    ensures RoundHalfEven(x) >= 0
  {
  }

  lemma PercentageOf(part: real, whole: real)
    requires whole > 0.0
    ensures part / whole * 100.0 * whole == part * 100.0
  {
    var share := part / whole;
    assert share * whole == part;
    assert share * 100.0 * whole == share * whole * 100.0;
  }
}
