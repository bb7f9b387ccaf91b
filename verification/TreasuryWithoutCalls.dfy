/** Runs without cash calls, worked out from the configuration and the draws alone. */
module TreasuryWithoutCalls {
  import opened Numerics
  import opened Wrappers
  import opened TreasuryModel
  import opened TreasuryEngine
  import opened TreasurySchedule

  // ----- One deposit -----

  function DriftAt(drift: seq<real>, m: int): real {
    if 0 <= m < |drift| then drift[m] else 0.0
  }

  /** The yearly rate, in per cent, of cycle `c` of a deposit: the tranche's own rate, drifted at every renewal. */
  function CycleRate(rate: real, tenor: int, drift: seq<real>, c: nat): real {
    if c == 0 then rate else Max(0.0, CycleRate(rate, tenor, drift, c - 1) + DriftAt(drift, c * tenor))
  }

  /** What `c` whole cycles of a deposit earn. */
  function CyclesInterest(principal: real, rate: real, tenor: int, drift: seq<real>, c: nat): real {
    if c == 0 then 0.0
    else
      CyclesInterest(principal, rate, tenor, drift, c - 1)
      + principal * CycleRate(rate, tenor, drift, c - 1) * tenor as real / 1200.0
  }

  /** The cycles that end before month `months`: at the tenor, twice the tenor and so on. */
  function Completed(tenor: int, months: nat): nat
    requires tenor >= 1
  {
    if months == 0 then 0 else (months - 1) / tenor
  }

  lemma QuotientBounds(m: nat, t: int)
    requires t >= 1
    ensures (m / t) * t <= m < (m / t + 1) * t
  {
    assert m == m / t * t + m % t;
  }

  lemma TimesOrder(x: int, y: int, t: int)
    requires t >= 1 && x <= y
    ensures x * t <= y * t
  {
  }

  lemma QuotientIs(m: nat, t: int, q: int)
    requires t >= 1 && q * t <= m < (q + 1) * t
    ensures m / t == q
  {
    var k := m / t;
    QuotientBounds(m, t);
    if k < q {
      TimesOrder(k + 1, q, t);
    } else if k > q {
      TimesOrder(q + 1, k, t);
    }
  }

  /** A cycle ends in month `m` exactly when that is the tenor's next multiple. */
  lemma NextCycle(tenor: int, m: nat)
    requires tenor >= 1
    ensures var c := Completed(tenor, m);
            Completed(tenor, m + 1) == if m == (c + 1) * tenor then c + 1 else c
  {
    var c := Completed(tenor, m);
    if m == 0 {
      QuotientIs(0, tenor, 0);
    } else {
      QuotientBounds(m - 1, tenor);
      if m == (c + 1) * tenor {
        assert (c + 2) * tenor == m + tenor;
        QuotientIs(m, tenor, c + 1);
      } else {
        QuotientIs(m, tenor, c);
      }
    }
  }

  predicate Fresh(r: RungState) {
    r.maturityMonth == r.tenorMonths >= 1 && r.investedSince == 0
  }

  /** A deposit that was fresh in month 0 and never broken, when `months` months are over. */
  function RungAfter(r: RungState, drift: seq<real>, months: nat): RungState
    requires Fresh(r)
  {
    var c := Completed(r.tenorMonths, months);
    RungState(
      r.tenorMonths, CycleRate(r.ratePct, r.tenorMonths, drift, c), r.principal,
      (c + 1) * r.tenorMonths, c * r.tenorMonths)
  }

  function RungInterest(r: RungState, drift: seq<real>, months: nat): real
    requires Fresh(r)
  {
    CyclesInterest(r.principal, r.ratePct, r.tenorMonths, drift, Completed(r.tenorMonths, months))
  }

  lemma ContractIsTwelfths(r: RungState, months: int)
    ensures ContractInterest(r, months) == r.principal * r.ratePct * months as real / 1200.0
  {
    var h := months as real;
    assert r.principal * (r.ratePct / 100.0 / 12.0) * h == r.principal * r.ratePct * h / 1200.0;
  }

  lemma RungMonth(r: RungState, drift: seq<real>, m: nat)
    requires Fresh(r) && m < |drift|
    ensures MatureOne(RungAfter(r, drift, m), m, drift[m]) == RungAfter(r, drift, m + 1)
    ensures MaturityInterestOne(RungAfter(r, drift, m), m) == RungInterest(r, drift, m + 1) - RungInterest(r, drift, m)
  {
    var tenor, c, now := r.tenorMonths, Completed(r.tenorMonths, m), RungAfter(r, drift, m);
    NextCycle(tenor, m);
    if m == (c + 1) * tenor {
      assert (c + 2) * tenor == m + tenor;
      ContractIsTwelfths(now, tenor);
    }
  }

  // ----- All deposits -----

  ghost predicate AllFresh(rungs: seq<RungState>) {
    forall i :: 0 <= i < |rungs| ==> Fresh(rungs[i])
  }

  function RungsAfter(rungs: seq<RungState>, drift: seq<real>, months: nat): seq<RungState>
    requires AllFresh(rungs)
  {
    seq(|rungs|, i requires 0 <= i < |rungs| => RungAfter(rungs[i], drift, months))
  }

  function Earned(rungs: seq<RungState>, drift: seq<real>, months: nat): real
    requires AllFresh(rungs)
  {
    if rungs == [] then 0.0
    else Earned(rungs[..|rungs| - 1], drift, months) + RungInterest(rungs[|rungs| - 1], drift, months)
  }

  lemma RungsMature(rungs: seq<RungState>, drift: seq<real>, m: nat)
    requires AllFresh(rungs) && m < |drift|
    ensures Matured(RungsAfter(rungs, drift, m), m, drift[m]) == RungsAfter(rungs, drift, m + 1)
  {
    forall i: nat | i < |rungs|
      ensures MatureOne(RungAfter(rungs[i], drift, m), m, drift[m]) == RungAfter(rungs[i], drift, m + 1)
    {
      RungMonth(rungs[i], drift, m);
    }
  }

  lemma {:induction false} RungsEarn(rungs: seq<RungState>, drift: seq<real>, m: nat)
    requires AllFresh(rungs) && m < |drift|
    ensures MaturityInterest(RungsAfter(rungs, drift, m), m) == Earned(rungs, drift, m + 1) - Earned(rungs, drift, m)
  {
    if rungs != [] {
      var n := |rungs| - 1;
      RungsEarn(rungs[..n], drift, m);
      RungMonth(rungs[n], drift, m);
      assert RungsAfter(rungs, drift, m)[..n] == RungsAfter(rungs[..n], drift, m);
    }
  }

  lemma {:induction false} NothingEarnedYet(rungs: seq<RungState>, drift: seq<real>)
    requires AllFresh(rungs)
    ensures Earned(rungs, drift, 0) == 0.0 && RungsAfter(rungs, drift, 0) == rungs
  {
    if rungs != [] {
      NothingEarnedYet(rungs[..|rungs| - 1], drift);
    }
  }

  // ----- The float -----

  /** A month's operations: dues in, opex out, a twelfth of the yearly savings rate on a positive float. */
  function Operated(p: Params, d: Draws, m: nat, liquid: real): real
    requires m < |d.collection|
  {
    var x := liquid + d.dues * d.collection[m] - d.dues * p.opexFraction;
    if x > 0.0 then x + x * p.savingsRatePct / 1200.0 else x
  }

  /** The float after `months` months: operations, and the interest of the deposits that mature. */
  function FloatAfter(p: Params, d: Draws, opening: real, rungs: seq<RungState>, months: nat): real
    requires months <= |d.collection| && AllFresh(rungs)
  {
    if months == 0 then opening
    else
      Operated(p, d, months - 1, FloatAfter(p, d, opening, rungs, months - 1))
      + (Earned(rungs, d.drift, months) - Earned(rungs, d.drift, months - 1))
  }

  lemma FlowsAreOperations(p: Params, d: Draws, m: nat, liquid: real)
    requires m < |d.collection|
    ensures AfterFlows(p, d, m, liquid) == Operated(p, d, m, liquid)
  {
    var x := liquid + d.dues * d.collection[m] - d.dues * p.opexFraction;
    assert x * (p.savingsRatePct / 100.0 / 12.0) == x * p.savingsRatePct / 1200.0;
  }

  ghost predicate NoCalls(d: Draws, months: nat) {
    forall m :: 0 <= m < months && m in d.calls ==> d.calls[m] == []
  }

  lemma MonthWithoutCalls(p: Params, d: Draws, s: State, m: nat)
    requires m < |d.collection| && m < |d.drift| && (m in d.calls ==> d.calls[m] == [])
    ensures Month(p, d, s, m) == State(
              AfterFlows(p, d, m, s.liquid) + MaturityInterest(s.rungs, m), Matured(s.rungs, m, d.drift[m]),
              s.interest + MaturityInterest(s.rungs, m), s.shortfalls, s.metViaBreak)
  {
  }

  function PositionAfter(p: Params, d: Draws, opening: State, months: nat): State
    requires months <= |d.collection| && AllFresh(opening.rungs)
  {
    State(
      FloatAfter(p, d, opening.liquid, opening.rungs, months), RungsAfter(opening.rungs, d.drift, months),
      opening.interest + Earned(opening.rungs, d.drift, months), opening.shortfalls, opening.metViaBreak)
  }

  lemma NextFloat(p: Params, d: Draws, opening: real, rungs: seq<RungState>, m: nat)
    requires m < |d.collection| && AllFresh(rungs)
    ensures FloatAfter(p, d, opening, rungs, m + 1)
         == AfterFlows(p, d, m, FloatAfter(p, d, opening, rungs, m)) + Earned(rungs, d.drift, m + 1) - Earned(rungs, d.drift, m)
  {
    FlowsAreOperations(p, d, m, FloatAfter(p, d, opening, rungs, m));
  }

  lemma NextPosition(p: Params, d: Draws, opening: State, m: nat)
    requires d.Cover(m + 1) && (m in d.calls ==> d.calls[m] == []) && AllFresh(opening.rungs)
    ensures Month(p, d, PositionAfter(p, d, opening, m), m) == PositionAfter(p, d, opening, m + 1)
  {
    var before := PositionAfter(p, d, opening, m);
    MonthWithoutCalls(p, d, before, m);
    NextFloat(p, d, opening.liquid, opening.rungs, m);
    RungsMature(opening.rungs, d.drift, m);
    RungsEarn(opening.rungs, d.drift, m);
  }

  /** The whole position after any number of months without calls. */
  lemma {:induction false} RunWithoutCalls(p: Params, d: Draws, opening: State, months: nat)
    requires d.Cover(months) && NoCalls(d, months) && AllFresh(opening.rungs)
    ensures Run(p, d, opening, months) == PositionAfter(p, d, opening, months)
  {
    if months == 0 {
      NothingEarnedYet(opening.rungs, d.drift);
    } else {
      var m := months - 1;
      RunWithoutCalls(p, d, opening, m);
      NextPosition(p, d, opening, m);
      RunNext(p, d, opening, m, PositionAfter(p, d, opening, m), PositionAfter(p, d, opening, months));
    }
  }

  // ----- The strategies -----

  /** All-liquid: the whole corpus in the float, and no deposit interest. */
  lemma AllLiquidWithoutCalls(p: Params, d: Draws, floor: real, investable: real, months: nat)
    requires d.Cover(months) && NoCalls(d, months)
    ensures Opening("all_liquid", p, floor, investable).Ok?
    ensures var closing := Run(p, d, Opening("all_liquid", p, floor, investable).value, months);
            closing == State(FloatAfter(p, d, floor + investable, [], months), [], 0.0, 0, 0)
  {
    RunWithoutCalls(p, d, Opening("all_liquid", p, floor, investable).value, months);
    assert RungsAfter([], d.drift, months) == [];
  }

  /** Single maturity: every completed cycle of the longest tranche pays its contract interest on the investable corpus. */
  lemma SingleMaturityWithoutCalls(p: Params, d: Draws, floor: real, investable: real, months: nat)
    requires d.Cover(months) && NoCalls(d, months) && p.fdLadder != [] && LongestTranche(p.fdLadder).tenorMonths >= 1
    ensures Opening("single_maturity", p, floor, investable).Ok?
    ensures var closing := Run(p, d, Opening("single_maturity", p, floor, investable).value, months);
            var t := LongestTranche(p.fdLadder);
            var c := Completed(t.tenorMonths, months);
            && closing.interest == CyclesInterest(investable, t.annualRatePct, t.tenorMonths, d.drift, c)
            && closing.rungs == [RungState(t.tenorMonths, CycleRate(t.annualRatePct, t.tenorMonths, d.drift, c), investable,
                                           (c + 1) * t.tenorMonths, c * t.tenorMonths)]
  {
    var t := LongestTranche(p.fdLadder);
    var r := RungState(t.tenorMonths, t.annualRatePct, investable, t.tenorMonths, 0);
    assert Opening("single_maturity", p, floor, investable).value.rungs == [r];
    RunWithoutCalls(p, d, Opening("single_maturity", p, floor, investable).value, months);
    EarnedByOne(r, d.drift, months);
  }

  lemma EarnedByOne(r: RungState, drift: seq<real>, months: nat)
    requires Fresh(r)
    ensures Earned([r], drift, months) == RungInterest(r, drift, months)
    ensures RungsAfter([r], drift, months) == [RungAfter(r, drift, months)]
  {
    assert [r][..0] == [];
  }

  /** What tranches of equal principal earn. */
  function LadderInterest(ladder: seq<Tranche>, principal: real, drift: seq<real>, months: nat): real
    requires forall i :: 0 <= i < |ladder| ==> ladder[i].tenorMonths >= 1
  {
    if ladder == [] then 0.0
    else
      var n := |ladder| - 1;
      LadderInterest(ladder[..n], principal, drift, months)
      + CyclesInterest(
          principal, ladder[n].annualRatePct, ladder[n].tenorMonths, drift, Completed(ladder[n].tenorMonths, months))
  }

  lemma {:induction false} LadderEarns(ladder: seq<Tranche>, rungs: seq<RungState>, principal: real, drift: seq<real>, months: nat)
    requires |rungs| == |ladder| && forall i :: 0 <= i < |ladder| ==> ladder[i].tenorMonths >= 1
    requires forall i :: 0 <= i < |ladder| ==>
      rungs[i] == RungState(ladder[i].tenorMonths, ladder[i].annualRatePct, principal, ladder[i].tenorMonths, 0)
    ensures Earned(rungs, drift, months) == LadderInterest(ladder, principal, drift, months)
  {
    if ladder != [] {
      var n := |ladder| - 1;
      LadderEarns(ladder[..n], rungs[..n], principal, drift, months);
    }
  }

  /** Laddered: the corpus in equal parts, each earning by its own tranche. */
  lemma LadderedWithoutCalls(p: Params, d: Draws, floor: real, investable: real, months: nat, part: real)
    requires d.Cover(months) && NoCalls(d, months) && p.fdLadder != [] && part * |p.fdLadder| as real == investable
    requires forall i :: 0 <= i < |p.fdLadder| ==> p.fdLadder[i].tenorMonths >= 1
    ensures Opening("laddered", p, floor, investable).Ok?
    ensures var closing := Run(p, d, Opening("laddered", p, floor, investable).value, months);
            && closing.interest == LadderInterest(p.fdLadder, part, d.drift, months)
            && |closing.rungs| == |p.fdLadder|
            && forall i :: 0 <= i < |p.fdLadder| ==> closing.rungs[i].principal == part
  {
    var rungs := Opening("laddered", p, floor, investable).value.rungs;
    PartOf(investable, |p.fdLadder| as real, part);
    RunWithoutCalls(p, d, Opening("laddered", p, floor, investable).value, months);
    LadderEarns(p.fdLadder, rungs, part, d.drift, months);
  }

  lemma PartOf(whole: real, n: real, part: real)
    requires n > 0.0 && part * n == whole
    ensures whole / n == part
  {
  }

  // ----- The report -----

  lemma NothingDrawn(sp: SimParams, rnd: Randomness)
    requires rnd.Suffices(sp) && sp.seasonal == []
    ensures NoCalls(SharedDraws(sp, rnd), sp.horizonMonths)
  {
  }

  /** The money a simulation is configured with. */
  predicate Configures(sp: SimParams, dues: real, corpus: real, floor: real) {
    && dues == sp.monthlyDuePerFlat * sp.flats as real
    && corpus == sp.corpusMonthsOfDues * dues && floor == sp.floatFloorMonths * dues
  }

  lemma ConfiguredMoney(sp: SimParams, dues: real, corpus: real, floor: real)
    requires Configures(sp, dues, corpus, floor)
    ensures Dues(sp) == dues && Floor(sp) == floor && Investable(sp) == if corpus > floor then corpus - floor else 0.0
  {
  }

  lemma OutcomeIsReported(sp: SimParams, rnd: Randomness, strategy: string, opening: State)
    requires rnd.Suffices(sp) && Opening(strategy, sp.treasury, Floor(sp), Investable(sp)) == Ok(opening)
    ensures StrategyOutcome(sp, rnd, strategy)
         == Ok(Report(strategy, |sp.seasonal|, Run(sp.treasury, SharedDraws(sp, rnd), opening, sp.horizonMonths)))
  {
  }

  /** A simulation without cash calls reports, for all-liquid, the float that the configured corpus or floor grows to. */
  lemma AllLiquidReport(sp: SimParams, rnd: Randomness, dues: real, corpus: real, floor: real)
    requires rnd.Suffices(sp) && sp.seasonal == [] && Configures(sp, dues, corpus, floor)
    ensures StrategyOutcome(sp, rnd, "all_liquid")
         == Ok(StrategyResult(
                 "all_liquid", 0.0, 0, 0, 0.0, 0.0,
                 FloatAfter(sp.treasury, Draws(dues, rnd.collection, rnd.drift, map[]),
                            if corpus > floor then corpus else floor, [], sp.horizonMonths)))
  {
    NothingDrawn(sp, rnd);
    ConfiguredMoney(sp, dues, corpus, floor);
    assert SharedDraws(sp, rnd) == Draws(dues, rnd.collection, rnd.drift, map[]);
    AllLiquidWithoutCalls(sp.treasury, SharedDraws(sp, rnd), Floor(sp), Investable(sp), sp.horizonMonths);
    OutcomeIsReported(
      sp, rnd, "all_liquid", Opening("all_liquid", sp.treasury, Floor(sp), Investable(sp)).value);
  }

  /** For a single maturity it reports the contract interest of every completed cycle on what lies above the floor. */
  lemma SingleMaturityReport(sp: SimParams, rnd: Randomness, dues: real, corpus: real, floor: real)
    requires rnd.Suffices(sp) && sp.seasonal == [] && Configures(sp, dues, corpus, floor)
    requires sp.treasury.fdLadder != [] && LongestTranche(sp.treasury.fdLadder).tenorMonths >= 1
    ensures var t := LongestTranche(sp.treasury.fdLadder);
            var above := if corpus > floor then corpus - floor else 0.0;
            var r := RungState(t.tenorMonths, t.annualRatePct, above, t.tenorMonths, 0);
            StrategyOutcome(sp, rnd, "single_maturity")
            == Ok(StrategyResult(
                    "single_maturity",
                    CyclesInterest(above, t.annualRatePct, t.tenorMonths, rnd.drift, Completed(t.tenorMonths, sp.horizonMonths)),
                    0, 0, 0.0, 0.0,
                    FloatAfter(sp.treasury, Draws(dues, rnd.collection, rnd.drift, map[]), floor, [r], sp.horizonMonths)))
  {
    NothingDrawn(sp, rnd);
    ConfiguredMoney(sp, dues, corpus, floor);
    assert SharedDraws(sp, rnd) == Draws(dues, rnd.collection, rnd.drift, map[]);
    var t := LongestTranche(sp.treasury.fdLadder);
    var r := RungState(t.tenorMonths, t.annualRatePct, Investable(sp), t.tenorMonths, 0);
    var opening := State(Floor(sp), [r], 0.0, 0, 0);
    assert Opening("single_maturity", sp.treasury, Floor(sp), Investable(sp)) == Ok(opening);
    RunWithoutCalls(sp.treasury, SharedDraws(sp, rnd), opening, sp.horizonMonths);
    EarnedByOne(r, rnd.drift, sp.horizonMonths);
    OutcomeIsReported(sp, rnd, "single_maturity", opening);
  }

  /** A three-month deposit of 120000 at 6.5 per cent has paid one cycle of 1950 before the end of month four. */
  lemma OneCycleOfThreeMonths(drift: seq<real>)
    ensures CyclesInterest(120000.0, 6.5, 3, drift, Completed(3, 4)) == 1950.0
  {
    assert CyclesInterest(120000.0, 6.5, 3, drift, 1) == 0.0 + 120000.0 * CycleRate(6.5, 3, drift, 0) * 3.0 / 1200.0;
  }
}
