/** No maturity is ever skipped, and breaking a deposit early never beats holding it. */
module TreasurySchedule {
  import opened Numerics
  import opened TreasuryModel
  import opened TreasuryBreaks
  import S = StableSort

  /** Where a rung stands once month `m` has processed its maturities: reinvested no later than `m`, due after it. */
  predicate OnSchedule(r: RungState, m: int) {
    && r.maturityMonth == r.investedSince + r.tenorMonths
    && m < r.maturityMonth <= m + r.tenorMonths
  }

  ghost predicate AllOnSchedule(rungs: seq<RungState>, m: int) {
    forall i :: 0 <= i < |rungs| ==> OnSchedule(rungs[i], m)
  }

  ghost predicate AwaitingMonth(rungs: seq<RungState>, m: int) {
    forall i :: 0 <= i < |rungs| ==>
      && rungs[i].maturityMonth == rungs[i].investedSince + rungs[i].tenorMonths
      && rungs[i].investedSince <= m <= rungs[i].maturityMonth
      && rungs[i].tenorMonths >= 1
  }

  /** Breaking keeps every rung either as it was or freshly reinvested. */
  lemma {:induction false} BreaksKeepOrRoll(
      p: Params, rungs: seq<RungState>, order: seq<nat>, k: nat, shortfall: real, m: int, drift: real)
    requires k <= |order| && S.Below(order, |rungs|)
    ensures var b := BreakUpTo(p, rungs, order, k, shortfall, m, drift);
            forall i :: 0 <= i < |rungs| ==>
              && b.rungs[i].tenorMonths == rungs[i].tenorMonths
              && (|| (b.rungs[i].maturityMonth == rungs[i].maturityMonth && b.rungs[i].investedSince == rungs[i].investedSince
                      && b.rungs[i].ratePct == rungs[i].ratePct)
                  || (b.rungs[i].maturityMonth == m + rungs[i].tenorMonths && b.rungs[i].investedSince == m
                      && b.rungs[i].ratePct >= 0.0))
  {
    if k > 0 {
      BreaksKeepOrRoll(p, rungs, order, k - 1, shortfall, m, drift);
    }
  }

  lemma MonthKeepsSchedule(p: Params, d: Draws, s: State, m: nat)
    requires m < |d.collection| && m < |d.drift| && AwaitingMonth(s.rungs, m)
    ensures AllOnSchedule(BeforeCalls(p, d, s, m).rungs, m)
    ensures AwaitingMonth(Month(p, d, s, m).rungs, m + 1)
  {
    var middle := BeforeCalls(p, d, s, m);
    if HasCalls(d, m) && middle.liquid < Needed(d, m) {
      var order := MaturityOrder(middle.rungs);
      BreaksKeepOrRoll(p, middle.rungs, order, |order|, Needed(d, m) - middle.liquid, m, d.drift[m]);
    }
  }

  lemma RunAwaits(p: Params, d: Draws, opening: State, months: nat)
    requires d.Cover(months) && AwaitingMonth(opening.rungs, 0)
    ensures AwaitingMonth(Run(p, d, opening, months).rungs, months)
  {
    forall s: State, m: nat | AwaitingMonth(s.rungs, m) && m < months
      ensures AwaitingMonth(Month(p, d, s, m).rungs, m + 1)
    {
      MonthKeepsSchedule(p, d, s, m);
    }
    RunInvariant((s: State, m: nat) => AwaitingMonth(s.rungs, m), p, d, opening, months);
  }

  /** The opening rungs of any strategy, on any ladder, are freshly invested in month 0. */
  ghost predicate FreshRungs(rungs: seq<RungState>) {
    forall i :: 0 <= i < |rungs| ==> rungs[i].maturityMonth == rungs[i].tenorMonths && rungs[i].investedSince == 0
  }

  /** The opening rungs are the tranches the strategy invests in, freshly invested. */
  lemma OpeningIsFresh(strategy: string, p: Params, floor: real, investable: real)
    requires Opening(strategy, p, floor, investable).Ok?
    ensures var rungs, tranches := Opening(strategy, p, floor, investable).value.rungs, TranchesInUse(strategy, p.fdLadder);
            && FreshRungs(rungs) && |rungs| == |tranches|
            && forall i :: 0 <= i < |rungs| ==>
              rungs[i].tenorMonths == tranches[i].tenorMonths && rungs[i].ratePct == tranches[i].annualRatePct
  {
  }

  ghost predicate MonthOnSchedule(p: Params, d: Draws, opening: State, m: nat)
    requires d.Cover(m + 1)
  {
    AllOnSchedule(BeforeCalls(p, d, Run(p, d, opening, m), m).rungs, m)
  }

  /** Every month of the run keeps every rung on schedule exactly when every opening tenor is at least a month. */
  lemma ScheduleHoldsIffTenorsPositive(p: Params, d: Draws, opening: State, months: nat)
    requires d.Cover(months) && months > 0 && FreshRungs(opening.rungs)
    ensures (forall m: nat :: m < months ==> MonthOnSchedule(p, d, opening, m))
       <==> forall i :: 0 <= i < |opening.rungs| ==> opening.rungs[i].tenorMonths >= 1
  {
    if forall i :: 0 <= i < |opening.rungs| ==> opening.rungs[i].tenorMonths >= 1 {
      forall m: nat | m < months ensures MonthOnSchedule(p, d, opening, m) {
        RunAwaits(p, d, opening, m);
        MonthKeepsSchedule(p, d, Run(p, d, opening, m), m);
      }
    } else {
      var i :| 0 <= i < |opening.rungs| && opening.rungs[i].tenorMonths < 1;
      var first := BeforeCalls(p, d, Run(p, d, opening, 0), 0).rungs;
      assert first[i] == MatureOne(opening.rungs[i], 0, d.drift[0]);
      assert !OnSchedule(first[i], 0);
      assert !MonthOnSchedule(p, d, opening, 0);
    }
  }

  /** Every tranche in use runs for at least a month. */
  predicate TenorsPositive(strategy: string, ladder: seq<Tranche>) {
    var tranches := TranchesInUse(strategy, ladder);
    forall i :: 0 <= i < |tranches| ==> tranches[i].tenorMonths >= 1
  }

  /** What that asks of a ladder: nothing of all-liquid, one tranche for a single maturity, every tranche for a ladder. */
  lemma TenorsPositiveMeans(strategy: string, ladder: seq<Tranche>)
    ensures strategy == "all_liquid" ==> TenorsPositive(strategy, ladder)
    ensures strategy == "single_maturity" && ladder != [] ==>
      (TenorsPositive(strategy, ladder) <==> exists i :: 0 <= i < |ladder| && ladder[i].tenorMonths >= 1)
    ensures strategy == "laddered" ==>
      (TenorsPositive(strategy, ladder) <==> forall i :: 0 <= i < |ladder| ==> ladder[i].tenorMonths >= 1)
  {
    if ladder != [] {
      var longest := LongestTranche(ladder);
      var k :| 0 <= k < |ladder| && ladder[k] == longest && FirstLongest(ladder, k);
      forall i | 0 <= i < |ladder| ensures ladder[i].tenorMonths <= longest.tenorMonths {
        if i >= k {
          assert ladder[i].tenorMonths <= ladder[k].tenorMonths;
        }
      }
      if strategy == "single_maturity" {
        assert TranchesInUse(strategy, ladder)[0] == ladder[k];
        assert TenorsPositive(strategy, ladder) <==> ladder[k].tenorMonths >= 1;
      }
    }
  }

  /** Any strategy keeps every rung on schedule in every month if and only if its tenors are at least a month. */
  lemma StrategyKeepsScheduleIffTenorsPositive(
      strategy: string, p: Params, d: Draws, floor: real, investable: real, months: nat)
    requires d.Cover(months) && months > 0 && Opening(strategy, p, floor, investable).Ok?
    ensures (forall m: nat :: m < months ==> MonthOnSchedule(p, d, Opening(strategy, p, floor, investable).value, m))
       <==> TenorsPositive(strategy, p.fdLadder)
  {
    OpeningIsFresh(strategy, p, floor, investable);
    ScheduleHoldsIffTenorsPositive(p, d, Opening(strategy, p, floor, investable).value, months);
  }

  // ----- Breaking early never pays -----

  /** Interest a month on a hundred rupees: broken, at the penalised rate for thirty days, and held, at the contract rate. */
  function BreakPace(p: Params, r: RungState): real {
    PenalisedRate(p, r) * 30.0 / 365.0
  }

  function ContractPace(r: RungState): real {
    r.ratePct / 12.0
  }

  /** The hundreds of rupees times months that a rung has been held for in month `m`. */
  function Stake(r: RungState, m: int): real {
    r.principal * (m - r.investedSince) as real / 100.0
  }

  lemma BreakInterestIsPace(p: Params, r: RungState, m: int)
    requires r.investedSince <= m
    ensures BreakInterest(p, r, m) == Stake(r, m) * BreakPace(p, r)
  {
    var e, h := PenalisedRate(p, r), (m - r.investedSince) as real;
    assert (HeldMonths(r, m) * 30) as real == h * 30.0;
    Regroup(r.principal, e, h * 30.0, 365.0);
    assert r.principal * h / 100.0 * (e * 30.0 / 365.0) == r.principal * e * (h * 30.0) / 36500.0;
  }

  lemma ContractInterestIsPace(r: RungState, m: int)
    ensures ContractInterest(r, m - r.investedSince) == Stake(r, m) * ContractPace(r)
  {
    var h := (m - r.investedSince) as real;
    assert r.principal * (r.ratePct / 100.0 / 12.0) * h == r.principal * r.ratePct * h / 1200.0;
    assert r.principal * h / 100.0 * (r.ratePct / 12.0) == r.principal * r.ratePct * h / 1200.0;
  }

  lemma Regroup(a: real, b: real, c: real, d: real)
    requires d > 0.0
    ensures a * (b / 100.0) * (c / d) == a * b * c / (100.0 * d)
  {
    var q := c / d;
    assert q * d == c;
    assert a * (b / 100.0) * q == a * b * q / 100.0;
    assert a * b * c == a * b * q * d;
  }

  lemma StakeSign(r: RungState, m: int)
    requires r.principal >= 0.0 && r.investedSince <= m
    ensures Stake(r, m) >= 0.0
    ensures Stake(r, m) == 0.0 <==> r.principal == 0.0 || r.investedSince == m
  {
    var h := (m - r.investedSince) as real;
    if r.principal > 0.0 && h > 0.0 {
      ProductPositive(r.principal, h);
    }
  }

  lemma ProductPositive(a: real, b: real)
    requires a > 0.0 && b > 0.0
    ensures a * b > 0.0
  {
  }

  lemma ScaledOrder(k: real, x: real, y: real)
    requires k >= 0.0
    ensures k * x <= k * y <==> k == 0.0 || x <= y
  {
    assert k * (y - x) == k * y - k * x;
    if k > 0.0 && x > y {
      ProductPositive(k, x - y);
      assert k * (x - y) == k * x - k * y;
    }
  }

  /**
    Breaking a deposit earns no more than its contract rate does, for any penalty, if and only if nothing is at
    stake or the penalised rate for thirty days is at most a twelfth of the contract rate.
   */
  lemma BreakInterestBelowContractIff(p: Params, r: RungState, m: int)
    requires r.principal >= 0.0 && r.investedSince <= m
    ensures BreakInterest(p, r, m) <= ContractInterest(r, m - r.investedSince)
       <==> r.principal == 0.0 || r.investedSince == m || BreakPace(p, r) <= ContractPace(r)
  {
    BreakInterestIsPace(p, r, m);
    ContractInterestIsPace(r, m);
    StakeSign(r, m);
    ScaledOrder(Stake(r, m), BreakPace(p, r), ContractPace(r));
  }

  /** With a penalty that is not negative this asks of the contract rate only that it is not negative. */
  lemma PenaltyKeepsPace(p: Params, r: RungState)
    requires p.penaltyPctPoints >= 0.0
    ensures BreakPace(p, r) <= ContractPace(r) <==> r.ratePct >= 0.0
  {
  }

  /** A bonus instead of a penalty beats the contract: one point on a deposit of one per cent. */
  lemma NegativePenaltyBeatsContract()
    ensures var p, r := Params([], 0.0, 0.0, -1.0, 0.0), RungState(12, 1.0, 100.0, 12, 0);
            BreakInterest(p, r, 1) > ContractInterest(r, 1)
  {
  }

  ghost predicate RatesNonNegative(rungs: seq<RungState>) {
    forall i :: 0 <= i < |rungs| ==> rungs[i].ratePct >= 0.0
  }

  lemma MonthKeepsRates(p: Params, d: Draws, s: State, m: nat)
    requires m < |d.collection| && m < |d.drift| && RatesNonNegative(s.rungs)
    ensures RatesNonNegative(BeforeCalls(p, d, s, m).rungs)
    ensures RatesNonNegative(Month(p, d, s, m).rungs)
  {
    var middle := BeforeCalls(p, d, s, m);
    if HasCalls(d, m) && middle.liquid < Needed(d, m) {
      var order := MaturityOrder(middle.rungs);
      BreaksKeepOrRoll(p, middle.rungs, order, |order|, Needed(d, m) - middle.liquid, m, d.drift[m]);
    }
  }

  lemma RunKeepsRates(p: Params, d: Draws, opening: State, months: nat)
    requires d.Cover(months) && RatesNonNegative(opening.rungs)
    ensures RatesNonNegative(Run(p, d, opening, months).rungs)
  {
    forall s: State, m: nat | RatesNonNegative(s.rungs) && m < months
      ensures RatesNonNegative(Month(p, d, s, m).rungs)
    {
      MonthKeepsRates(p, d, s, m);
    }
    RunInvariant((s: State, m: nat) => RatesNonNegative(s.rungs), p, d, opening, months);
  }

  /**
    Whenever a run of any strategy could break a rung, in any month, the rung has been held for less than its
    tenor, and breaking it earns no more than its contract rate for the months it was held.
   */
  lemma BreakingNeverBeatsHolding(strategy: string, p: Params, d: Draws, floor: real, investable: real, m: nat, i: nat)
    requires d.Cover(m + 1) && Opening(strategy, p, floor, investable).Ok? && investable >= 0.0
    requires p.penaltyPctPoints >= 0.0 && p.tolerance >= 0.0
    requires TenorsPositive(strategy, p.fdLadder)
    requires forall t :: t in TranchesInUse(strategy, p.fdLadder) ==> t.annualRatePct >= 0.0
    requires i < |BeforeCalls(p, d, Run(p, d, Opening(strategy, p, floor, investable).value, m), m).rungs|
    ensures var r := BeforeCalls(p, d, Run(p, d, Opening(strategy, p, floor, investable).value, m), m).rungs[i];
            && 0 <= m - r.investedSince < r.tenorMonths
            && BreakInterest(p, r, m) <= ContractInterest(r, m - r.investedSince)
  {
    var opening := Opening(strategy, p, floor, investable).value;
    var before := Run(p, d, opening, m);
    OpeningIsFresh(strategy, p, floor, investable);
    OpeningIsNonNegative(strategy, p, floor, investable);
    RunAwaits(p, d, opening, m);
    RunKeepsRates(p, d, opening, m);
    RunKeepsNonNegative(p, d, opening, m);
    RungBeforeCalls(p, d, before, m, i);
  }

  lemma RungBeforeCalls(p: Params, d: Draws, s: State, m: nat, i: nat)
    requires m < |d.collection| && m < |d.drift| && p.penaltyPctPoints >= 0.0 && p.tolerance >= 0.0
    requires AwaitingMonth(s.rungs, m) && RatesNonNegative(s.rungs) && NonNegative(s.rungs)
    requires i < |BeforeCalls(p, d, s, m).rungs|
    ensures var r := BeforeCalls(p, d, s, m).rungs[i];
            && 0 <= m - r.investedSince < r.tenorMonths
            && BreakInterest(p, r, m) <= ContractInterest(r, m - r.investedSince)
  {
    MonthKeepsSchedule(p, d, s, m);
    var r := BeforeCalls(p, d, s, m).rungs[i];
    assert OnSchedule(r, m) && r == MatureOne(s.rungs[i], m, d.drift[m]);
    BreakInterestBelowContractIff(p, r, m);
    PenaltyKeepsPace(p, r);
  }
}
