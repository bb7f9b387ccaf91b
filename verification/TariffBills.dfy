/** What is on a bill, in the figures of the tariff and of the comparison. */
module TariffBills {
  import opened Numerics
  import opened Wrappers
  import opened RoundedSums
  import opened Tariff
  import opened TariffTheorems
  import C = TariffComparison

  // ----- The lines of a bill -----

  /** A line of the breakdown: the part of one slab's band, at that slab's rate, to the nearest paisa. */
  ghost predicate IsLineOf(c: SlabCharge, slab: Slab, previous: real) {
    && c.fromUnit == previous + 1.0 && (slab.upTo.Some? ==> c.toUnit <= slab.upTo.value)
    && c.rate == slab.rate
    && Abs(c.chargePaise as real - c.units * slab.rate * 100.0) <= 0.5
  }

  /** Where the band of slab `i` begins. */
  function FloorOf(slabs: seq<Slab>, previous: real, i: nat): real
    requires i < |slabs|
  {
    if i == 0 then previous else if slabs[i - 1].upTo.Some? then slabs[i - 1].upTo.value else 0.0
  }

  ghost predicate HasLine(slabs: seq<Slab>, previous: real, c: SlabCharge) {
    exists i :: 0 <= i < |slabs| && IsLineOf(c, slabs[i], FloorOf(slabs, previous, i))
  }

  lemma LineOf(c: SlabCharge, slab: Slab, previous: real)
    requires c == ChargeFor(slab, previous, c.units) && (slab.upTo.Some? ==> c.toUnit <= slab.upTo.value)
    ensures IsLineOf(c, slab, previous)
  {
    ToPaiseIsNearest(c.units * slab.rate);
  }

  lemma LineOfFirst(slabs: seq<Slab>, previous: real, x: real, c: SlabCharge)
    requires slabs != [] && c in ChargeIn(slabs[0], previous, x)
    ensures HasLine(slabs, previous, c)
  {
    LineOf(c, slabs[0], previous);
    assert IsLineOf(c, slabs[0], FloorOf(slabs, previous, 0));
  }

  /** Every line of a breakdown charges a part of one slab's band at that slab's rate. */
  lemma {:induction false} LinesAreOfSlabs(slabs: seq<Slab>, previous: real, x: real, c: SlabCharge)
    requires OpenLadder(slabs, previous) && c in Walk(slabs, previous, x)
    ensures HasLine(slabs, previous, c)
  {
    if c in ChargeIn(slabs[0], previous, x) {
      LineOfFirst(slabs, previous, x, c);
    } else {
      var next := slabs[0].upTo.value;
      LinesAreOfSlabs(slabs[1..], next, x, c);
      var i :| 0 <= i < |slabs[1..]| && IsLineOf(c, slabs[1..][i], FloorOf(slabs[1..], next, i));
      assert IsLineOf(c, slabs[i + 1], FloorOf(slabs, previous, i + 1));
    }
  }

  // ----- The parts of a bill, in paise and before rounding -----

  function FixedFigure(t: ElectricityTariff): real {
    (t.fixedPerConnection + t.fixedPerKw * t.sanctionedLoadKw) * 100.0
  }

  function DemandFigure(t: ElectricityTariff, kva: real): real {
    t.demandPerKva * kva * 100.0
  }

  function DutyFigure(t: ElectricityTariff, energyPaise: real): real {
    energyPaise * t.energyDutyPct / 100.0
  }

  function CessFigure(t: ElectricityTariff): real {
    t.fixedCess * 100.0
  }

  lemma TwoParts(a: real, b: real)
    ensures Abs((ToPaise(a) + ToPaise(b)) as real - (a + b) * 100.0) <= 1.0
  {
    ToPaiseIsNearest(a);
    ToPaiseIsNearest(b);
  }

  lemma DutyAndCess(duty: real, cess: real)
    ensures Abs((RoundHalfEven(duty) + ToPaise(cess)) as real - (duty + cess * 100.0)) <= 1.0
  {
    RoundHalfEvenIsNearest(duty);
    ToPaiseIsNearest(cess);
  }

  ghost predicate FixedFits(b: Bill, t: ElectricityTariff) {
    Abs(b.fixedPaise as real - FixedFigure(t)) <= 1.0
  }

  ghost predicate DemandFits(b: Bill, t: ElectricityTariff, kva: real) {
    Abs(b.demandPaise as real - DemandFigure(t, kva)) <= 0.5
  }

  ghost predicate DutyAndCessFit(b: Bill, t: ElectricityTariff) {
    Abs(b.dutyCessPaise as real - (DutyFigure(t, b.energyPaise as real) + CessFigure(t))) <= 1.0
  }

  /** What a bill has to say, but for its energy charge. */
  ghost predicate InFigures(b: Bill, t: ElectricityTariff, kva: real) {
    && b.energyPaise == TotalPaise(b.slabBreakdown)
    && FixedFits(b, t) && DemandFits(b, t, kva) && DutyAndCessFit(b, t)
    && b.totalPaise == b.energyPaise + b.fixedPaise + b.demandPaise + b.dutyCessPaise
  }

  lemma FixedInFigures(b: Bill, t: ElectricityTariff)
    requires b.fixedPaise == FixedPaise(t)
    ensures FixedFits(b, t)
  {
    TwoParts(t.fixedPerConnection, t.fixedPerKw * t.sanctionedLoadKw);
  }

  lemma DemandInFigures(b: Bill, t: ElectricityTariff, kva: real)
    requires b.demandPaise == DemandPaise(t, kva)
    ensures DemandFits(b, t, kva)
  {
    ToPaiseIsNearest(t.demandPerKva * kva);
  }

  lemma DutyAndCessInFigures(b: Bill, t: ElectricityTariff)
    requires b.dutyCessPaise == DutyAndCessPaise(t, b.energyPaise)
    ensures DutyAndCessFit(b, t)
  {
    DutyIsRounded(t, b.energyPaise);
    DutyAndCess(DutyFigure(t, b.energyPaise as real), t.fixedCess);
  }

  lemma DutyIsRounded(t: ElectricityTariff, energyPaise: int)
    ensures DutyPaise(t, energyPaise) == RoundHalfEven(DutyFigure(t, energyPaise as real))
  {
  }

  lemma PartsInFigures(b: Bill, t: ElectricityTariff, x: real, kva: real, breakdown: seq<SlabCharge>)
    requires b == BillOf(x, breakdown, FixedPaise(t), DemandPaise(t, kva), DutyAndCessPaise(t, TotalPaise(breakdown)))
    ensures b.consumption == x && InFigures(b, t, kva)
  {
    FixedInFigures(b, t);
    DemandInFigures(b, t, kva);
    DutyAndCessInFigures(b, t);
  }

  /**
    The parts of a bill in the figures of the tariff: the fixed charge is that of the connection and of the
    sanctioned load, the demand charge that of the contract demand, duty is on the energy charge, cess is fixed.
    Every amount is rounded to the paisa, some of them in two parts.
   */
  lemma BillInFigures(t: ElectricityTariff, x: real, kva: real)
    ensures BillFor(t, x, kva).consumption == x && InFigures(BillFor(t, x, kva), t, kva)
  {
    PartsInFigures(BillFor(t, x, kva), t, x, kva, Walk(t.slabs, 0.0, Effective(x)));
  }

  lemma EnergyOfBill(t: ElectricityTariff, x: real, kva: real)
    requires OpenLadder(t.slabs, 0.0)
    ensures Abs(BillFor(t, x, kva).energyPaise as real - Energy(t.slabs, 0.0, Max(0.0, x)) * 100.0) <= SlabAllowance(|t.slabs|)
  {
    EarlyBreakIsSafe(t.slabs, 0.0, Max(0.0, x));
    RoundingBound(t.slabs, 0.0, Max(0.0, x));
  }

  /** Energy with its duty in paise, against the unrounded charge. */
  lemma DutyOnRounded(energyPaise: real, energy: real, pct: real, allowance: real)
    requires Abs(energyPaise - energy * 100.0) <= allowance && pct >= 0.0
    ensures Abs(energyPaise + energyPaise * pct / 100.0 - energy * (1.0 + pct / 100.0) * 100.0)
         <= allowance + allowance * pct / 100.0
  {
    var off := energyPaise - energy * 100.0;
    Scaled(off, allowance, pct);
    assert energyPaise * pct == energy * 100.0 * pct + off * pct;
    assert energy * (1.0 + pct / 100.0) * 100.0 == energy * 100.0 + energy * pct;
  }

  lemma Scaled(off: real, allowance: real, pct: real)
    requires Abs(off) <= allowance && pct >= 0.0
    ensures Abs(off * pct) <= allowance * pct
  {
    assert (allowance - off) * pct >= 0.0 && (allowance + off) * pct >= 0.0;
    assert (allowance - off) * pct == allowance * pct - off * pct;
    assert (allowance + off) * pct == allowance * pct + off * pct;
  }

  function WithDuty(t: ElectricityTariff, energy: real): real {
    energy * (1.0 + t.energyDutyPct / 100.0) * 100.0
  }

  lemma EnergyWithDuty(t: ElectricityTariff, energyPaise: real, energy: real, allowance: real)
    requires Abs(energyPaise - energy * 100.0) <= allowance && t.energyDutyPct >= 0.0
    ensures Abs(energyPaise + DutyFigure(t, energyPaise) - WithDuty(t, energy)) <= allowance + DutyFigure(t, allowance)
  {
    DutyOnRounded(energyPaise, energy, t.energyDutyPct, allowance);
  }

  /**
    The total of a bill: energy with its duty, fixed charges, demand and cess, to within the rounding of the
    slabs, of the duty on them, and of five further amounts.
   */
  lemma TotalInFigures(t: ElectricityTariff, x: real, kva: real)
    requires OpenLadder(t.slabs, 0.0) && t.energyDutyPct >= 0.0
    ensures var allowance := SlabAllowance(|t.slabs|);
            Abs(BillFor(t, x, kva).totalPaise as real
                - (WithDuty(t, Energy(t.slabs, 0.0, Max(0.0, x))) + FixedFigure(t) + DemandFigure(t, kva) + CessFigure(t)))
            <= allowance + DutyFigure(t, allowance) + 2.5
  {
    var b, e, allowance := BillFor(t, x, kva), Energy(t.slabs, 0.0, Max(0.0, x)), SlabAllowance(|t.slabs|);
    BillInFigures(t, x, kva);
    EnergyOfBill(t, x, kva);
    TotalOfFigures(b, t, e, kva, allowance);
  }

  lemma TotalOfFigures(b: Bill, t: ElectricityTariff, e: real, kva: real, allowance: real)
    requires InFigures(b, t, kva) && Abs(b.energyPaise as real - e * 100.0) <= allowance && t.energyDutyPct >= 0.0
    ensures Abs(b.totalPaise as real - (WithDuty(t, e) + FixedFigure(t) + DemandFigure(t, kva) + CessFigure(t)))
         <= allowance + DutyFigure(t, allowance) + 2.5
  {
    var energyPaise := b.energyPaise as real;
    EnergyWithDuty(t, energyPaise, e, allowance);
    AddUp(
      energyPaise, DutyFigure(t, energyPaise), b.fixedPaise as real, b.demandPaise as real, b.dutyCessPaise as real,
      WithDuty(t, e), FixedFigure(t), DemandFigure(t, kva), CessFigure(t), allowance + DutyFigure(t, allowance));
  }

  lemma AddUp(
      energy: real, duty: real, fixed: real, demand: real, dutyCess: real,
      exactEnergy: real, exactFixed: real, exactDemand: real, exactCess: real, allowance: real)
    requires Abs(energy + duty - exactEnergy) <= allowance && Abs(fixed - exactFixed) <= 1.0
    requires Abs(demand - exactDemand) <= 0.5 && Abs(dutyCess - (duty + exactCess)) <= 1.0
    ensures Abs(energy + fixed + demand + dutyCess - (exactEnergy + exactFixed + exactDemand + exactCess)) <= allowance + 2.5
  {
  }

  /** 120 rupees per connection and 25 of cess: an idle connection is billed 14500 paise. */
  lemma IdleLtConnection(t: ElectricityTariff)
    requires OpenLadder(t.slabs, 0.0) && t.fixedPerConnection == 120.0 && t.fixedPerKw == 0.0 && t.fixedCess == 25.0
    ensures BillFor(t, 0.0, 0.0).totalPaise == 14500
  {
    IdleConnectionPaysItsFixedCharges(t, 0.0, 0.0);
    ToPaiseExact(t.fixedPerConnection, 12000);
    ToPaiseExact(t.fixedPerKw * t.sanctionedLoadKw, 0);
    ToPaiseExact(t.demandPerKva * 0.0, 0);
    ToPaiseExact(t.fixedCess, 2500);
  }

  // ----- The comparison -----

  /** The separate bills of LT connections. */
  function LtTotals(t: ElectricityTariff, loads: seq<real>): seq<int> {
    seq(|loads|, i requires 0 <= i < |loads| => BillFor(t, loads[i], 0.0).totalPaise)
  }

  lemma LtAggregateIs(flats: seq<real>, commonKwh: real, t: ElectricityTariff)
    ensures LtAggregate(flats, commonKwh, t) == SumInt(LtTotals(t, flats)) + BillFor(t, commonKwh, 0.0).totalPaise
  {
    assert MapInt(LtBill(t), flats) == LtTotals(t, flats);
  }

  /** The HT connection is billed for the whole load, with at least 45 kVA contracted, or the mean load and 15 per cent. */
  lemma HtBulkIs(flats: seq<real>, commonKwh: real, t: ElectricityTariff, load: real, kva: real)
    requires load == Sum(flats) + commonKwh
    requires kva == if load / 720.0 * 1.15 > 45.0 then load / 720.0 * 1.15 else 45.0
    ensures HtBulk(flats, commonKwh, t) == BillFor(t, load, kva).totalPaise
  {
    assert ContractDemand(load) == kva;
  }

  /** What a comparison of two totals has to say. */
  ghost predicate Compares(c: Comparison, bulk: int, separate: int, marginCap: real, overheadPct: real) {
    && c.htBulkPaise == bulk && c.ltAggregatePaise == separate && c.savingPaise == separate - bulk
    && (separate > 0 ==> c.savingPct * separate as real == c.savingPaise as real * 100.0)
    && (separate <= 0 ==> c.savingPct == 0.0)
    && Abs((c.recoverablePaise - c.savingPaise) as real - C.Overhead(bulk, marginCap, overheadPct)) <= 0.5
  }

  lemma ComparedInFigures(bulk: int, separate: int, marginCap: real, overheadPct: real)
    ensures Compares(Compared(bulk, separate, marginCap, overheadPct), bulk, separate, marginCap, overheadPct)
  {
    C.RecoverableIsSavingPlusOverhead(bulk, separate, marginCap, overheadPct);
    if separate > 0 {
      C.SavingPctIsShareOfLt(bulk, separate, marginCap, overheadPct);
    }
  }

  /**
    The reported comparison, in figures: the bill for everything on one HT connection against a bill for each
    flat and one for the common area; the saving is their difference and its share of the latter; what may be
    recovered on top is, to the nearest paisa, the capped fraction of the HT bill or the wanted percentage of
    it, whichever is less.
   */
  lemma ComparisonInFigures(
      flats: seq<real>, commonKwh: real, lt: ElectricityTariff, ht: ElectricityTariff, marginCap: real, overheadPct: real,
      load: real, kva: real)
    requires load == Sum(flats) + commonKwh
    requires kva == if load / 720.0 * 1.15 > 45.0 then load / 720.0 * 1.15 else 45.0
    ensures Compares(
              CompareHtVsLt(flats, commonKwh, lt, ht, marginCap, overheadPct),
              BillFor(ht, load, kva).totalPaise,
              SumInt(LtTotals(lt, flats)) + BillFor(lt, commonKwh, 0.0).totalPaise,
              marginCap, overheadPct)
  {
    HtBulkIs(flats, commonKwh, ht, load, kva);
    LtAggregateIs(flats, commonKwh, lt);
    ComparedInFigures(HtBulk(flats, commonKwh, ht), LtAggregate(flats, commonKwh, lt), marginCap, overheadPct);
    ComparisonIs(flats, commonKwh, lt, ht, marginCap, overheadPct);
  }

  lemma ComparisonIs(
      flats: seq<real>, commonKwh: real, lt: ElectricityTariff, ht: ElectricityTariff, marginCap: real, overheadPct: real)
    ensures CompareHtVsLt(flats, commonKwh, lt, ht, marginCap, overheadPct)
         == Compared(HtBulk(flats, commonKwh, ht), LtAggregate(flats, commonKwh, lt), marginCap, overheadPct)
  {
  }
}
