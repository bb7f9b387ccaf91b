/** Two runs on the same draws: what the choice of strategy, and what more money, can change. */
module TreasuryComparison {
  import opened Numerics
  import opened Wrappers
  import opened TreasuryModel
  import S = StableSort
  import opened TreasuryBreaks
  import opened TreasuryConservation

  // ----- Without interest, the strategy does not matter -----

  /** No rate anywhere in the parameters, and none that a renewal could drift above zero. */
  ghost predicate NoRates(p: Params, d: Draws, months: nat)
    requires d.Cover(months)
  {
    && p.savingsRatePct == 0.0 && p.penaltyPctPoints >= 0.0 && p.tolerance >= 0.0
    && forall m :: 0 <= m < months ==> d.drift[m] <= 0.0
  }

  ghost predicate Idle(rungs: seq<RungState>) {
    forall i :: 0 <= i < |rungs| ==> rungs[i].ratePct == 0.0 && rungs[i].principal >= 0.0
  }

  lemma {:induction false} IdleMaturesForNothing(rungs: seq<RungState>, m: int)
    requires Idle(rungs)
    ensures MaturityInterest(rungs, m) == 0.0
  {
    if rungs != [] {
      IdleMaturesForNothing(rungs[..|rungs| - 1], m);
    }
  }

  lemma {:induction false} IdleYieldsPrincipal(p: Params, rungs: seq<RungState>, m: int, n: nat)
    requires Idle(rungs) && p.penaltyPctPoints >= 0.0 && n <= |rungs|
    ensures S.SumBelow(n, ProceedsOf(p, rungs, m)) == Principals(rungs[..n]) >= 0.0
  {
    if n > 0 {
      IdleYieldsPrincipal(p, rungs, m, n - 1);
      assert rungs[..n][..n - 1] == rungs[..n - 1];
    }
  }

  lemma IdleEarnsNothing(p: Params, rungs: seq<RungState>, m: int)
    requires Idle(rungs) && p.penaltyPctPoints >= 0.0
    ensures MaturityInterest(rungs, m) == 0.0
    ensures TotalProceeds(p, rungs, m) == Principals(rungs) >= 0.0
  {
    IdleMaturesForNothing(rungs, m);
    IdleYieldsPrincipal(p, rungs, m, |rungs|);
    assert rungs[..|rungs|] == rungs;
  }

  lemma {:induction false} BreaksKeepIdle(
      p: Params, rungs: seq<RungState>, order: seq<nat>, k: nat, shortfall: real, m: int, drift: real)
    requires k <= |order| && S.Below(order, |rungs|) && Idle(rungs)
    requires p.penaltyPctPoints >= 0.0 && drift <= 0.0
    ensures var b := BreakUpTo(p, rungs, order, k, shortfall, m, drift); Idle(b.rungs) && b.interest == 0.0
  {
    if k > 0 {
      BreaksKeepIdle(p, rungs, order, k - 1, shortfall, m, drift);
      var b := BreakUpTo(p, rungs, order, k - 1, shortfall, m, drift);
      assert BreakInterest(p, b.rungs[order[k - 1]], m) == 0.0;
    }
  }

  /** The least and the most wealth that can remain after a call, when nothing earns interest. */
  lemma CallLeavesWealth(p: Params, d: Draws, s: State, m: nat)
    requires m < |d.drift| && Idle(s.rungs)
    requires p.penaltyPctPoints >= 0.0 && p.tolerance >= 0.0 && d.drift[m] <= 0.0
    ensures var after := MeetCalls(p, d, s, m);
            && Idle(after.rungs)
            && (!HasCalls(d, m) ==> Wealth(after) == Wealth(s))
            && (HasCalls(d, m) ==>
              var left := Wealth(s) - Needed(d, m);
              && Max(0.0, left) <= Wealth(after) <= Max(0.0, left + p.tolerance)
              && (IsShort(p, d, s, m) <==> left < -p.tolerance))
  {
    IdleEarnsNothing(p, s.rungs, m);
    if HasCalls(d, m) && s.liquid < Needed(d, m) {
      var shortfall := Needed(d, m) - s.liquid;
      var order := MaturityOrder(s.rungs);
      BreaksKeepIdle(p, s.rungs, order, |order|, shortfall, m, d.drift[m]);
      BreaksConserve(p, s.rungs, order, |order|, shortfall, m, d.drift[m]);
      BreaksComplete(p, s.rungs, shortfall, m, d.drift[m]);
      IdleEarnsNothing(p, Breaks(p, s.rungs, shortfall, m, d.drift[m]).rungs, m);
    }
  }

  /** Month `m` without rates: the rungs stay idle and the wealth before the calls moves by dues less opex. */
  lemma IdleMonth(p: Params, d: Draws, s: State, m: nat)
    requires m < |d.collection| && m < |d.drift| && Idle(s.rungs)
    requires p.savingsRatePct == 0.0 && p.penaltyPctPoints >= 0.0 && d.drift[m] <= 0.0
    ensures Idle(BeforeCalls(p, d, s, m).rungs)
    ensures Wealth(BeforeCalls(p, d, s, m)) == Wealth(s) + Collected(d, m) - Opex(p, d)
  {
    MaturingKeepsPrincipals(s.rungs, m, d.drift[m]);
    IdleEarnsNothing(p, s.rungs, m);
    assert SavingsInterest(p, s.liquid + Collected(d, m) - Opex(p, d)) == 0.0;
  }

  /** One month widens the gap between two idle positions by at most the tolerance, and only if there is a call. */
  lemma IdleMonthStaysClose(p: Params, d: Draws, a: State, b: State, m: nat, gap: real)
    requires m < |d.collection| && m < |d.drift| && Idle(a.rungs) && Idle(b.rungs)
    requires p.savingsRatePct == 0.0 && p.penaltyPctPoints >= 0.0 && p.tolerance >= 0.0 && d.drift[m] <= 0.0
    requires Abs(Wealth(a) - Wealth(b)) <= gap
    ensures Idle(Month(p, d, a, m).rungs) && Idle(Month(p, d, b, m).rungs)
    ensures Abs(Wealth(Month(p, d, a, m)) - Wealth(Month(p, d, b, m)))
         <= gap + if HasCalls(d, m) then p.tolerance else 0.0
  {
    IdleMonth(p, d, a, m);
    IdleMonth(p, d, b, m);
    CallLeavesWealth(p, d, BeforeCalls(p, d, a, m), m);
    CallLeavesWealth(p, d, BeforeCalls(p, d, b, m), m);
  }

  /** One tolerance for every call month among the first `months`. */
  function Slack(tolerance: real, d: Draws, months: nat): real {
    tolerance * CallMonths(d, months) as real
  }

  lemma SlackGrows(tolerance: real, d: Draws, m: nat)
    ensures Slack(tolerance, d, m + 1) == Slack(tolerance, d, m) + if HasCalls(d, m) then tolerance else 0.0
  {
    var n := CallMonths(d, m) as real;
    assert tolerance * (n + 1.0) == tolerance * n + tolerance;
  }

  /** Two idle positions drift apart by at most one tolerance per call month. */
  lemma {:induction false} IdleRunsStayClose(p: Params, d: Draws, a: State, b: State, months: nat)
    requires d.Cover(months) && NoRates(p, d, months)
    requires Idle(a.rungs) && Idle(b.rungs) && Wealth(a) == Wealth(b)
    ensures Idle(Run(p, d, a, months).rungs) && Idle(Run(p, d, b, months).rungs)
    ensures Abs(Wealth(Run(p, d, a, months)) - Wealth(Run(p, d, b, months))) <= Slack(p.tolerance, d, months)
  {
    if months > 0 {
      var m := months - 1;
      IdleRunsStayClose(p, d, a, b, m);
      assert d.drift[m] <= 0.0;
      IdleMonthStaysClose(p, d, Run(p, d, a, m), Run(p, d, b, m), m, Slack(p.tolerance, d, m));
      SlackGrows(p.tolerance, d, m);
    }
  }

  lemma OpeningIsIdle(strategy: string, p: Params, floor: real, investable: real)
    requires Opening(strategy, p, floor, investable).Ok? && investable >= 0.0
    requires forall t :: t in p.fdLadder ==> t.annualRatePct == 0.0
    ensures Idle(Opening(strategy, p, floor, investable).value.rungs)
  {
    if strategy == "laddered" && p.fdLadder != [] {
      assert investable / |p.fdLadder| as real >= 0.0;
    }
  }

  /**
    On the same draws and without interest, any two strategies end every month with the same total wealth,
    up to one tolerance for each call month so far.
   */
  lemma StrategiesAgreeWithoutRates(
      one: string, other: string, p: Params, d: Draws, floor: real, investable: real, months: nat)
    requires d.Cover(months) && NoRates(p, d, months) && investable >= 0.0
    requires p.fdLadder != [] && forall t :: t in p.fdLadder ==> t.annualRatePct == 0.0
    requires Opening(one, p, floor, investable).Ok? && Opening(other, p, floor, investable).Ok?
    ensures Abs(Wealth(Run(p, d, Opening(one, p, floor, investable).value, months))
                - Wealth(Run(p, d, Opening(other, p, floor, investable).value, months)))
         <= Slack(p.tolerance, d, months)
  {
    OpeningWealth(one, p, floor, investable);
    OpeningWealth(other, p, floor, investable);
    OpeningIsIdle(one, p, floor, investable);
    OpeningIsIdle(other, p, floor, investable);
    IdleRunsStayClose(p, d, Opening(one, p, floor, investable).value, Opening(other, p, floor, investable).value, months);
  }

  /** Two idle states of the same wealth meet a month's calls alike. */
  lemma IdleMonthCoincides(p: Params, d: Draws, a: State, b: State, m: nat)
    requires m < |d.collection| && m < |d.drift| && d.drift[m] <= 0.0
    requires p.savingsRatePct == 0.0 && p.penaltyPctPoints >= 0.0 && p.tolerance == 0.0
    requires Idle(a.rungs) && Idle(b.rungs) && Wealth(a) == Wealth(b)
    ensures IsShort(p, d, BeforeCalls(p, d, a, m), m) <==> IsShort(p, d, BeforeCalls(p, d, b, m), m)
    ensures Month(p, d, a, m).shortfalls - a.shortfalls == Month(p, d, b, m).shortfalls - b.shortfalls
  {
    IdleMonth(p, d, a, m);
    IdleMonth(p, d, b, m);
    CallLeavesWealth(p, d, BeforeCalls(p, d, a, m), m);
    CallLeavesWealth(p, d, BeforeCalls(p, d, b, m), m);
  }

  /** No dues, and a call one tolerance above what the float can pay in each of the first `n` months. */
  function CallsAtTolerance(tolerance: real, floor: real, n: nat): Draws {
    Draws(
      0.0, seq(n, _ => 1.0), seq(n, _ => 0.0),
      map m: int | 0 <= m < n :: [CallSize(tolerance, floor, m)])
  }

  function CallSize(tolerance: real, floor: real, m: int): real {
    if m == 0 then floor + tolerance else tolerance
  }

  /** One tranche, long enough not to mature within `n` months, and no rates. */
  function OneTranche(tolerance: real, n: nat): Params {
    Params([Tranche(n, 0.0)], 0.0, 0.0, 0.0, tolerance)
  }

  lemma SumOfOne(x: real)
    ensures Sum([x]) == x
  {
    assert [x][..0] == [];
  }

  lemma CallAtTolerance(tolerance: real, floor: real, n: nat, m: nat)
    requires m < n
    ensures var d := CallsAtTolerance(tolerance, floor, n);
            HasCalls(d, m) && Needed(d, m) == (if m == 0 then floor else 0.0) + tolerance
  {
    SumOfOne(CallSize(tolerance, floor, m));
  }

  function DepositOf(investable: real, n: nat): RungState {
    NewRung(Tranche(n, 0.0), investable)
  }

  lemma OpeningPositions(tolerance: real, floor: real, investable: real, n: nat)
    ensures var p := OneTranche(tolerance, n);
            && Opening("all_liquid", p, floor, investable) == Ok(State(floor + investable, [], 0.0, 0, 0))
            && Opening("single_maturity", p, floor, investable) == Ok(State(floor, [DepositOf(investable, n)], 0.0, 0, 0))
  {
    var ladder := OneTranche(tolerance, n).fdLadder;
    assert ladder == [Tranche(n, 0.0)] && LongestTranche(ladder) == ladder[0];
  }

  /** The positions after `k` such months: the single deposit is untouched, and the float has paid every tolerance. */
  lemma {:induction false} PositionsAtTolerance(tolerance: real, floor: real, investable: real, n: nat, k: nat)
    requires tolerance > 0.0 && floor >= 0.0 && k <= n
    requires Slack(tolerance, CallsAtTolerance(tolerance, floor, n), k) <= investable
    ensures var p, d, r := OneTranche(tolerance, n), CallsAtTolerance(tolerance, floor, n), DepositOf(investable, n);
            var left := if k == 0 then floor else 0.0;
            && Run(p, d, State(floor, [r], 0.0, 0, 0), k) == State(left, [r], 0.0, 0, 0)
            && Run(p, d, State(floor + investable, [], 0.0, 0, 0), k)
               == State(left + investable - Slack(tolerance, d, k), [], 0.0, 0, 0)
  {
    if k > 0 {
      var p, d, r, m := OneTranche(tolerance, n), CallsAtTolerance(tolerance, floor, n), DepositOf(investable, n), k - 1;
      var left := if m == 0 then floor else 0.0;
      SlackMonotone(tolerance, d, m, k);
      PositionsAtTolerance(tolerance, floor, investable, n, m);
      NextPositions(tolerance, floor, investable, n, m);
      RunNext(p, d, State(floor, [r], 0.0, 0, 0), m, State(left, [r], 0.0, 0, 0), State(0.0, [r], 0.0, 0, 0));
      RunNext(
        p, d, State(floor + investable, [], 0.0, 0, 0), m,
        State(left + investable - Slack(tolerance, d, m), [], 0.0, 0, 0),
        State(investable - Slack(tolerance, d, k), [], 0.0, 0, 0));
    }
  }

  /** What month `m` does to the positions at its beginning. */
  lemma NextPositions(tolerance: real, floor: real, investable: real, n: nat, m: nat)
    requires tolerance > 0.0 && floor >= 0.0 && m < n
    requires Slack(tolerance, CallsAtTolerance(tolerance, floor, n), m + 1) <= investable
    ensures var p, d, r := OneTranche(tolerance, n), CallsAtTolerance(tolerance, floor, n), DepositOf(investable, n);
            var left := if m == 0 then floor else 0.0;
            && Month(p, d, State(left, [r], 0.0, 0, 0), m) == State(0.0, [r], 0.0, 0, 0)
            && Month(p, d, State(left + investable - Slack(tolerance, d, m), [], 0.0, 0, 0), m)
               == State(investable - Slack(tolerance, d, m + 1), [], 0.0, 0, 0)
  {
    var p, d := OneTranche(tolerance, n), CallsAtTolerance(tolerance, floor, n);
    var left := if m == 0 then floor else 0.0;
    CallAtTolerance(tolerance, floor, n, m);
    SlackGrows(tolerance, d, m);
    SingleAtTolerance(p, d, m, left, DepositOf(investable, n));
    LiquidAtTolerance(p, d, m, left, left + investable - Slack(tolerance, d, m));
  }

  lemma SingleAtTolerance(p: Params, d: Draws, m: nat, left: real, r: RungState)
    requires m < |d.collection| && m < |d.drift| && d.dues == 0.0 && p.savingsRatePct == 0.0 && left >= 0.0
    requires HasCalls(d, m) && Needed(d, m) == left + p.tolerance && p.tolerance > 0.0 && m < r.maturityMonth
    ensures Month(p, d, State(left, [r], 0.0, 0, 0), m) == State(0.0, [r], 0.0, 0, 0)
  {
    var s := State(left, [r], 0.0, 0, 0);
    assert AfterFlows(p, d, m, left) == left;
    assert MaturityInterest([r], m) == MaturityInterest([r][..0], m) + 0.0 == 0.0;
    assert Matured([r], m, d.drift[m]) == [r];
    assert BeforeCalls(p, d, s, m) == s;
    NothingBroken(p, [r], Needed(d, m) - left, m, d.drift[m]);
  }

  lemma LiquidAtTolerance(p: Params, d: Draws, m: nat, left: real, liquid: real)
    requires m < |d.collection| && m < |d.drift| && d.dues == 0.0 && p.savingsRatePct == 0.0
    requires HasCalls(d, m) && Needed(d, m) == left + p.tolerance <= liquid
    ensures Month(p, d, State(liquid, [], 0.0, 0, 0), m) == State(liquid - left - p.tolerance, [], 0.0, 0, 0)
  {
    assert AfterFlows(p, d, m, liquid) == liquid;
    assert BeforeCalls(p, d, State(liquid, [], 0.0, 0, 0), m) == State(liquid, [], 0.0, 0, 0);
  }

  lemma {:induction false} EveryMonthCalls(tolerance: real, floor: real, n: nat, k: nat)
    requires k <= n
    ensures CallMonths(CallsAtTolerance(tolerance, floor, n), k) == k
  {
    if k > 0 {
      EveryMonthCalls(tolerance, floor, n, k - 1);
    }
  }

  lemma SlackMonotone(tolerance: real, d: Draws, k: nat, n: nat)
    requires tolerance > 0.0 && k <= n
    ensures Slack(tolerance, d, k) <= Slack(tolerance, d, n)
  {
    if k < n {
      SlackMonotone(tolerance, d, k, n - 1);
      SlackGrows(tolerance, d, n - 1);
    }
  }

  lemma SlackOfEveryMonth(tolerance: real, floor: real, n: nat)
    ensures Slack(tolerance, CallsAtTolerance(tolerance, floor, n), n) == n as real * tolerance
  {
    EveryMonthCalls(tolerance, floor, n, n);
  }

  lemma WealthAtTolerance(tolerance: real, floor: real, investable: real, n: nat)
    requires tolerance > 0.0 && floor >= 0.0
    requires Slack(tolerance, CallsAtTolerance(tolerance, floor, n), n) <= investable
    ensures var p, d := OneTranche(tolerance, n), CallsAtTolerance(tolerance, floor, n);
            && Opening("all_liquid", p, floor, investable).Ok? && Opening("single_maturity", p, floor, investable).Ok?
            && Wealth(Run(p, d, Opening("single_maturity", p, floor, investable).value, n))
               - Wealth(Run(p, d, Opening("all_liquid", p, floor, investable).value, n))
               == Slack(tolerance, d, n)
  {
    OpeningPositions(tolerance, floor, investable, n);
    PositionsAtTolerance(tolerance, floor, investable, n, n);
    var r := DepositOf(investable, n);
    assert Principals([r]) == Principals([r][..0]) + r.principal;
  }

  /**
    The bound is reached for every number of call months: `n` calls, each one tolerance above the float, take
    `n` tolerances from the one strategy and nothing from the other.
   */
  lemma ToleranceSeparates(tolerance: real, floor: real, investable: real, n: nat)
    requires tolerance > 0.0 && floor >= 0.0 && n as real * tolerance <= investable
    ensures var p, d := OneTranche(tolerance, n), CallsAtTolerance(tolerance, floor, n);
            && Opening("all_liquid", p, floor, investable).Ok? && Opening("single_maturity", p, floor, investable).Ok?
            && Wealth(Run(p, d, Opening("single_maturity", p, floor, investable).value, n))
               - Wealth(Run(p, d, Opening("all_liquid", p, floor, investable).value, n))
               == Slack(tolerance, d, n) == n as real * tolerance
  {
    SlackOfEveryMonth(tolerance, floor, n);
    WealthAtTolerance(tolerance, floor, investable, n);
  }

  /** A residue within the tolerance breaks nothing. */
  lemma NothingBroken(p: Params, rungs: seq<RungState>, shortfall: real, m: int, drift: real)
    requires shortfall <= p.tolerance
    ensures Breaks(p, rungs, shortfall, m, drift) == BreakState(rungs, shortfall, 0.0, false)
  {
    NothingBrokenUpTo(p, rungs, MaturityOrder(rungs), |rungs|, shortfall, m, drift);
  }

  lemma {:induction false} NothingBrokenUpTo(
      p: Params, rungs: seq<RungState>, order: seq<nat>, k: nat, shortfall: real, m: int, drift: real)
    requires k <= |order| && S.Below(order, |rungs|) && shortfall <= p.tolerance
    ensures BreakUpTo(p, rungs, order, k, shortfall, m, drift) == BreakState(rungs, shortfall, 0.0, false)
  {
    if k > 0 {
      NothingBrokenUpTo(p, rungs, order, k - 1, shortfall, m, drift);
    }
  }

  /** With no tolerance the strategies agree exactly: the same wealth after every month, and the same shortfall months. */
  lemma {:induction false} StrategiesCoincideWithoutTolerance(
      one: string, other: string, p: Params, d: Draws, floor: real, investable: real, months: nat)
    requires d.Cover(months) && NoRates(p, d, months) && p.tolerance == 0.0 && investable >= 0.0
    requires p.fdLadder != [] && forall t :: t in p.fdLadder ==> t.annualRatePct == 0.0
    requires Opening(one, p, floor, investable).Ok? && Opening(other, p, floor, investable).Ok?
    ensures var a, b := Opening(one, p, floor, investable).value, Opening(other, p, floor, investable).value;
            && Wealth(Run(p, d, a, months)) == Wealth(Run(p, d, b, months))
            && Run(p, d, a, months).shortfalls == Run(p, d, b, months).shortfalls
            && (months > 0 ==> (IsShort(p, d, BeforeCalls(p, d, Run(p, d, a, months - 1), months - 1), months - 1)
                           <==> IsShort(p, d, BeforeCalls(p, d, Run(p, d, b, months - 1), months - 1), months - 1)))
  {
    var a, b := Opening(one, p, floor, investable).value, Opening(other, p, floor, investable).value;
    StrategiesAgreeWithoutRates(one, other, p, d, floor, investable, months);
    if months > 0 {
      var m := months - 1;
      StrategiesCoincideWithoutTolerance(one, other, p, d, floor, investable, m);
      OpeningWealth(one, p, floor, investable);
      OpeningWealth(other, p, floor, investable);
      OpeningIsIdle(one, p, floor, investable);
      OpeningIsIdle(other, p, floor, investable);
      IdleRunsStayClose(p, d, a, b, m);
      assert d.drift[m] <= 0.0;
      IdleMonthCoincides(p, d, Run(p, d, a, m), Run(p, d, b, m), m);
    }
  }

  // ----- Under all_liquid, more money never hurts -----

  ghost predicate CollectsNoMore(poor: Draws, rich: Draws, months: nat)
    requires poor.Cover(months) && rich.Cover(months)
  {
    && poor.dues == rich.dues && poor.calls == rich.calls
    && forall m :: 0 <= m < months ==> poor.collection[m] <= rich.collection[m]
  }

  lemma FlowsMonotone(p: Params, poor: Draws, rich: Draws, m: nat, a: real, b: real)
    requires m < |poor.collection| && m < |rich.collection|
    requires poor.dues == rich.dues >= 0.0 && poor.collection[m] <= rich.collection[m]
    requires p.savingsRatePct >= 0.0 && a <= b
    ensures AfterFlows(p, poor, m, a) <= AfterFlows(p, rich, m, b)
  {
    var dues, rate := poor.dues, p.savingsRatePct / 100.0 / 12.0;
    assert dues * (rich.collection[m] - poor.collection[m]) >= 0.0;
    var x, y := a + Collected(poor, m) - Opex(p, poor), b + Collected(rich, m) - Opex(p, rich);
    assert x <= y;
    if x > 0.0 {
      assert (y - x) * rate >= 0.0;
    } else if y > 0.0 {
      assert y * rate >= 0.0;
    }
  }

  /** A larger opening float and larger collections never cause a shortfall or leave less in the float. */
  lemma {:induction false} AllLiquidMonotone(p: Params, poor: Draws, rich: Draws, a: State, b: State, months: nat)
    requires poor.Cover(months) && rich.Cover(months) && CollectsNoMore(poor, rich, months)
    requires poor.dues >= 0.0 && p.savingsRatePct >= 0.0
    requires a.rungs == [] && b.rungs == [] && a.liquid <= b.liquid && b.shortfalls <= a.shortfalls
    ensures Run(p, poor, a, months).liquid <= Run(p, rich, b, months).liquid
    ensures Run(p, rich, b, months).shortfalls <= Run(p, poor, a, months).shortfalls
    ensures Run(p, poor, a, months).rungs == [] && Run(p, rich, b, months).rungs == []
  {
    if months > 0 {
      var m := months - 1;
      AllLiquidMonotone(p, poor, rich, a, b, m);
      FlowsMonotone(p, poor, rich, m, Run(p, poor, a, m).liquid, Run(p, rich, b, m).liquid);
    }
  }

  lemma MoreCorpusNeverHurtsAllLiquid(
      p: Params, poor: Draws, rich: Draws, floor: real, corpus: real, moreCorpus: real, months: nat)
    requires poor.Cover(months) && rich.Cover(months) && CollectsNoMore(poor, rich, months)
    requires poor.dues >= 0.0 && p.savingsRatePct >= 0.0 && corpus <= moreCorpus
    ensures var a := Opening("all_liquid", p, floor, Max(0.0, corpus - floor)).value;
            var b := Opening("all_liquid", p, floor, Max(0.0, moreCorpus - floor)).value;
            && Run(p, poor, a, months).liquid <= Run(p, rich, b, months).liquid
            && Run(p, rich, b, months).shortfalls <= Run(p, poor, a, months).shortfalls
  {
    AllLiquidMonotone(
      p, poor, rich,
      Opening("all_liquid", p, floor, Max(0.0, corpus - floor)).value,
      Opening("all_liquid", p, floor, Max(0.0, moreCorpus - floor)).value, months);
  }
}
