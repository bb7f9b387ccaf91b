/** Money is conserved over a whole run, and every configured cash call falls due inside the horizon. */
module TreasuryConservation {
  import opened Numerics
  import opened Wrappers
  import opened TreasuryModel
  import S = StableSort
  import opened TreasuryEngine

  lemma {:induction false} PrincipalsUpdate(rungs: seq<RungState>, i: nat, r: RungState)
    requires i < |rungs|
    ensures Principals(rungs[i := r]) == Principals(rungs) - rungs[i].principal + r.principal
  {
    var last := |rungs| - 1;
    if i == last {
      assert rungs[i := r][..last] == rungs[..last];
    } else {
      assert rungs[i := r][..last] == rungs[..last][i := r];
      PrincipalsUpdate(rungs[..last], i, r);
    }
  }

  lemma {:induction false} MaturingKeepsPrincipals(rungs: seq<RungState>, m: int, drift: real)
    ensures Principals(Matured(rungs, m, drift)) == Principals(rungs)
  {
    if rungs != [] {
      var last := |rungs| - 1;
      assert Matured(rungs, m, drift)[..last] == Matured(rungs[..last], m, drift);
      MaturingKeepsPrincipals(rungs[..last], m, drift);
    }
  }

  lemma BreakOneConserves(p: Params, b: BreakState, i: nat, m: int, drift: real)
    requires i < |b.rungs|
    ensures var after := BreakOne(p, b, i, m, drift);
            Principals(after.rungs) == Principals(b.rungs) + (after.interest - b.interest) - (b.shortfall - after.shortfall)
  {
    if b.shortfall > p.tolerance {
      var proceeds := Proceeds(p, b.rungs[i], m);
      PrincipalsUpdate(b.rungs, i, Rolled(b.rungs[i], m, drift, proceeds - Min(b.shortfall, proceeds)));
    }
  }

  /** Breaking deposits turns principal and break interest into payments, and loses nothing on the way. */
  lemma {:induction false} BreaksConserve(
      p: Params, rungs: seq<RungState>, order: seq<nat>, k: nat, shortfall: real, m: int, drift: real)
    requires k <= |order| && S.Below(order, |rungs|)
    ensures var b := BreakUpTo(p, rungs, order, k, shortfall, m, drift);
            Principals(b.rungs) == Principals(rungs) + b.interest - (shortfall - b.shortfall)
  {
    if k > 0 {
      BreaksConserve(p, rungs, order, k - 1, shortfall, m, drift);
      BreakOneConserves(p, BreakUpTo(p, rungs, order, k - 1, shortfall, m, drift), order[k - 1], m, drift);
    }
  }

  lemma MonthConserves(p: Params, d: Draws, s: State, m: nat)
    requires m < |d.collection| && m < |d.drift|
    ensures var after := Month(p, d, s, m);
            Wealth(after) == Wealth(s) + NetFlow(p, d, s, m) + after.interest - s.interest
  {
    MaturingKeepsPrincipals(s.rungs, m, d.drift[m]);
    var middle := BeforeCalls(p, d, s, m);
    if HasCalls(d, m) && middle.liquid < Needed(d, m) {
      var order := MaturityOrder(middle.rungs);
      BreaksConserve(p, middle.rungs, order, |order|, Needed(d, m) - middle.liquid, m, d.drift[m]);
    }
  }

  /** Closing wealth is opening wealth plus the net flows of every month plus all deposit interest. */
  lemma {:induction false} RunConserves(p: Params, d: Draws, opening: State, months: nat)
    requires d.Cover(months)
    ensures var closing := Run(p, d, opening, months);
            Wealth(closing) == Wealth(opening) + NetFlows(p, d, opening, months) + closing.interest - opening.interest
  {
    if months > 0 {
      RunConserves(p, d, opening, months - 1);
      MonthConserves(p, d, Run(p, d, opening, months - 1), months - 1);
    }
  }

  lemma {:induction false} EqualPrincipals(rungs: seq<RungState>, each: real)
    requires forall i :: 0 <= i < |rungs| ==> rungs[i].principal == each
    ensures Principals(rungs) == |rungs| as real * each
  {
    if rungs != [] {
      EqualPrincipals(rungs[..|rungs| - 1], each);
      assert |rungs| as real * each == (|rungs| - 1) as real * each + each;
    }
  }

  /** Every strategy starts with the whole corpus, except a ladder without tranches, which drops the investable part. */
  lemma OpeningWealth(strategy: string, p: Params, floor: real, investable: real)
    requires Opening(strategy, p, floor, investable).Ok?
    ensures Wealth(Opening(strategy, p, floor, investable).value)
         == if strategy == "laddered" && p.fdLadder == [] then floor else floor + investable
  {
    var s := Opening(strategy, p, floor, investable).value;
    if strategy == "laddered" && p.fdLadder != [] {
      var n := |p.fdLadder| as real;
      EqualPrincipals(s.rungs, investable / n);
      assert n * (investable / n) == investable;
    } else if strategy == "single_maturity" {
      EqualPrincipals(s.rungs, investable);
    }
  }

  /** Conservation from the configured corpus to the closing position, and exactly when it holds. */
  lemma WholeRunConservation(strategy: string, p: Params, d: Draws, months: nat, corpus: real, floor: real)
    requires d.Cover(months)
    requires Opening(strategy, p, floor, Max(0.0, corpus - floor)).Ok?
    ensures var opening := Opening(strategy, p, floor, Max(0.0, corpus - floor)).value;
            var closing := Run(p, d, opening, months);
            Wealth(closing) == Max(corpus, floor) + NetFlows(p, d, opening, months) + closing.interest
            <==> !(strategy == "laddered" && p.fdLadder == [] && corpus > floor)
  {
    OpeningWealth(strategy, p, floor, Max(0.0, corpus - floor));
    RunConserves(p, d, Opening(strategy, p, floor, Max(0.0, corpus - floor)).value, months);
  }

  // ----- The drawn cash calls -----

  function CallsOf(calls: map<int, seq<real>>, month: int): multiset<real> {
    if month in calls then multiset(calls[month]) else multiset{}
  }

  /** Every amount demanded in the first `months` months, as often as it is demanded. */
  function Demanded(calls: map<int, seq<real>>, months: nat): multiset<real> {
    if months == 0 then multiset{} else Demanded(calls, months - 1) + CallsOf(calls, months - 1)
  }

  /** The amounts of the first `n` configured calls. */
  function Configured(sp: SimParams, rnd: Randomness, dues: real, n: nat): multiset<real>
    requires rnd.Suffices(sp) && n <= |sp.seasonal|
  {
    if n == 0 then multiset{} else Configured(sp, rnd, dues, n - 1) + multiset{CallAmount(sp, rnd, dues, n - 1)}
  }

  lemma AddCallOf(calls: map<int, seq<real>>, month: int, amount: real, m: int)
    ensures CallsOf(AddCall(calls, month, amount), m)
         == CallsOf(calls, m) + if m == month then multiset{amount} else multiset{}
  {
  }

  lemma Regrouped(d: multiset<real>, c: multiset<real>, x: multiset<real>)
    ensures d + (c + x) == (d + c) + x == (d + x) + c
  {
  }

  lemma {:induction false} AddCallDemanded(calls: map<int, seq<real>>, month: int, amount: real, months: nat)
    ensures Demanded(AddCall(calls, month, amount), months)
         == Demanded(calls, months) + if 0 <= month < months then multiset{amount} else multiset{}
  {
    if months > 0 {
      var m, none: multiset<real> := months - 1, multiset{};
      AddCallDemanded(calls, month, amount, m);
      AddCallOf(calls, month, amount, m);
      var d, c := Demanded(calls, m), CallsOf(calls, m);
      Regrouped(d, c, multiset{amount});
      assert d + none == d && c + none == c && (d + c) + none == d + c;
    }
  }

  lemma {:induction false} NothingDemanded(months: nat)
    ensures Demanded(map[], months) == multiset{}
  {
    if months > 0 {
      NothingDemanded(months - 1);
    }
  }

  lemma {:induction false} DrawnAreConfigured(sp: SimParams, rnd: Randomness, dues: real, n: nat)
    requires rnd.Suffices(sp) && n <= |sp.seasonal| && sp.horizonMonths > 0
    ensures Demanded(DrawnCalls(sp, rnd, dues, n), sp.horizonMonths) == Configured(sp, rnd, dues, n)
  {
    if n == 0 {
      NothingDemanded(sp.horizonMonths);
    } else {
      DrawnAreConfigured(sp, rnd, dues, n - 1);
      AddCallDemanded(
        DrawnCalls(sp, rnd, dues, n - 1), CallMonth(sp, rnd, n - 1), CallAmount(sp, rnd, dues, n - 1), sp.horizonMonths);
    }
  }

  /** However far the jitter pushes it, every configured call is demanded exactly once within a non-empty horizon. */
  lemma EveryCallFallsDue(sp: SimParams, rnd: Randomness)
    requires rnd.Suffices(sp) && sp.horizonMonths > 0
    ensures Demanded(SharedDraws(sp, rnd).calls, sp.horizonMonths) == Configured(sp, rnd, Dues(sp), |sp.seasonal|)
  {
    DrawnAreConfigured(sp, rnd, Dues(sp), |sp.seasonal|);
  }

  /** What a configured call asks for, in configuration and draws: the month before it is held to the horizon. */
  function WantedMonth(sp: SimParams, rnd: Randomness, i: nat): int
    requires rnd.Suffices(sp) && i < |sp.seasonal|
  {
    if sp.jitterMonths > 0 then sp.seasonal[i].month + rnd.shifts[i] else sp.seasonal[i].month
  }

  /** What it asks for: a multiple of the dues, times the drawn size. */
  function WantedAmount(sp: SimParams, rnd: Randomness, dues: real, i: nat): real
    requires rnd.Suffices(sp) && i < |sp.seasonal|
  {
    var size := if sp.sizeSigma > 0.0 then rnd.factors[i] else 1.0;
    sp.seasonal[i].multiple * dues * size
  }

  function Distance(x: int, m: int): int {
    if x >= m then x - m else m - x
  }

  /** `m` is the month of a horizon that lies nearest to `x`. */
  ghost predicate NearestMonth(x: int, horizon: nat, m: int) {
    0 <= m < horizon && forall k :: 0 <= k < horizon ==> Distance(x, m) <= Distance(x, k)
  }

  lemma CallFallsInNearestMonth(sp: SimParams, rnd: Randomness, i: nat, m: int)
    requires rnd.Suffices(sp) && i < |sp.seasonal| && sp.horizonMonths > 0
    ensures CallMonth(sp, rnd, i) == m <==> NearestMonth(WantedMonth(sp, rnd, i), sp.horizonMonths, m)
  {
    var x, n, c := WantedMonth(sp, rnd, i), sp.horizonMonths, CallMonth(sp, rnd, i);
    if NearestMonth(x, n, m) {
      assert Distance(x, m) <= Distance(x, c);
    }
  }

  lemma AmountIsWanted(sp: SimParams, rnd: Randomness, dues: real, i: nat)
    requires rnd.Suffices(sp) && i < |sp.seasonal|
    ensures CallAmount(sp, rnd, dues, i) == WantedAmount(sp, rnd, dues, i)
  {
  }

  /** The amounts of the calls that `falls` of, in configuration order. */
  function CallsWhich(sp: SimParams, rnd: Randomness, dues: real, falls: nat -> bool, n: nat): seq<real>
    requires rnd.Suffices(sp) && n <= |sp.seasonal|
  {
    if n == 0 then []
    else
      CallsWhich(sp, rnd, dues, falls, n - 1)
      + if falls(n - 1) then [WantedAmount(sp, rnd, dues, n - 1)] else []
  }

  function CallsAt(calls: map<int, seq<real>>, m: int): seq<real> {
    if m in calls then calls[m] else []
  }

  lemma AddCallAt(calls: map<int, seq<real>>, month: int, amount: real, m: int)
    ensures CallsAt(AddCall(calls, month, amount), m) == CallsAt(calls, m) + if m == month then [amount] else []
  {
  }

  lemma {:induction false} DrawnWhich(sp: SimParams, rnd: Randomness, dues: real, m: int, falls: nat -> bool, n: nat)
    requires rnd.Suffices(sp) && n <= |sp.seasonal|
    requires forall i: nat :: i < n ==> (falls(i) <==> CallMonth(sp, rnd, i) == m)
    ensures CallsAt(DrawnCalls(sp, rnd, dues, n), m) == CallsWhich(sp, rnd, dues, falls, n)
  {
    if n > 0 {
      DrawnWhich(sp, rnd, dues, m, falls, n - 1);
      AmountIsWanted(sp, rnd, dues, n - 1);
      AddCallAt(DrawnCalls(sp, rnd, dues, n - 1), CallMonth(sp, rnd, n - 1), CallAmount(sp, rnd, dues, n - 1), m);
    }
  }

  /** Every month demands, in configuration order, the calls whose jittered month it is nearest to, at their drawn sizes. */
  lemma MonthsDemandTheirCalls(sp: SimParams, rnd: Randomness, dues: real, m: int, falls: nat -> bool, n: nat)
    requires rnd.Suffices(sp) && n <= |sp.seasonal| && sp.horizonMonths > 0
    requires forall i: nat :: i < n ==> (falls(i) <==> NearestMonth(WantedMonth(sp, rnd, i), sp.horizonMonths, m))
    ensures CallsAt(DrawnCalls(sp, rnd, dues, n), m) == CallsWhich(sp, rnd, dues, falls, n)
  {
    forall i: nat | i < n ensures falls(i) <==> CallMonth(sp, rnd, i) == m {
      CallFallsInNearestMonth(sp, rnd, i, m);
    }
    DrawnWhich(sp, rnd, dues, m, falls, n);
  }

  // ----- Reported counts -----

  /** Month `m`'s call is met, but only by breaking a deposit. */
  predicate IsRescued(p: Params, d: Draws, s: State, m: nat)
    requires m < |d.drift|
  {
    && HasCalls(d, m) && s.liquid < Needed(d, m) && Unmet(p, d, s, m) <= p.tolerance
    && Breaks(p, s.rungs, Needed(d, m) - s.liquid, m, d.drift[m]).used
  }

  predicate ShortAt(p: Params, d: Draws, opening: State, m: nat) {
    d.Cover(m + 1) && IsShort(p, d, BeforeCalls(p, d, Run(p, d, opening, m), m), m)
  }

  predicate RescuedAt(p: Params, d: Draws, opening: State, m: nat) {
    d.Cover(m + 1) && IsRescued(p, d, BeforeCalls(p, d, Run(p, d, opening, m), m), m)
  }

  function MonthsWhere(holds: nat -> bool, months: nat): set<nat> {
    set m: nat | m < months && holds(m)
  }

  lemma MonthsWhereGrows(holds: nat -> bool, m: nat)
    ensures |MonthsWhere(holds, m + 1)| == |MonthsWhere(holds, m)| + if holds(m) then 1 else 0
  {
    assert MonthsWhere(holds, m + 1) == MonthsWhere(holds, m) + if holds(m) then {m} else {};
  }

  function ShortMonths(p: Params, d: Draws, opening: State, months: nat): set<nat> {
    MonthsWhere((m: nat) => ShortAt(p, d, opening, m), months)
  }

  function RescuedMonths(p: Params, d: Draws, opening: State, months: nat): set<nat> {
    MonthsWhere((m: nat) => RescuedAt(p, d, opening, m), months)
  }

  lemma MonthCounts(p: Params, d: Draws, s: State, m: nat)
    requires m < |d.collection| && m < |d.drift|
    ensures var before, after := BeforeCalls(p, d, s, m), Month(p, d, s, m);
            && after.shortfalls == s.shortfalls + (if IsShort(p, d, before, m) then 1 else 0)
            && after.metViaBreak == s.metViaBreak + (if IsRescued(p, d, before, m) then 1 else 0)
  {
  }

  lemma CountersStep(p: Params, d: Draws, opening: State, m: nat, before: State, after: State)
    requires d.Cover(m + 1) && before == Run(p, d, opening, m) && after == Month(p, d, before, m)
    ensures after.shortfalls == before.shortfalls + if ShortAt(p, d, opening, m) then 1 else 0
    ensures after.metViaBreak == before.metViaBreak + if RescuedAt(p, d, opening, m) then 1 else 0
  {
    MonthCounts(p, d, before, m);
  }

  lemma {:induction false} CountersCount(p: Params, d: Draws, opening: State, months: nat)
    requires d.Cover(months)
    ensures Run(p, d, opening, months).shortfalls == opening.shortfalls + |ShortMonths(p, d, opening, months)|
    ensures Run(p, d, opening, months).metViaBreak == opening.metViaBreak + |RescuedMonths(p, d, opening, months)|
  {
    if months > 0 {
      var m := months - 1;
      CountersCount(p, d, opening, m);
      CountersStep(p, d, opening, m, Run(p, d, opening, m), Run(p, d, opening, months));
      MonthsWhereGrows((m: nat) => ShortAt(p, d, opening, m), m);
      MonthsWhereGrows((m: nat) => RescuedAt(p, d, opening, m), m);
    }
  }

  /** The two counters count months: disjoint sets of months, all of them months with calls. */
  lemma CountsAreMonths(p: Params, d: Draws, opening: State, months: nat)
    requires d.Cover(months)
    ensures var short, rescued := ShortMonths(p, d, opening, months), RescuedMonths(p, d, opening, months);
            && Run(p, d, opening, months).shortfalls == opening.shortfalls + |short|
            && Run(p, d, opening, months).metViaBreak == opening.metViaBreak + |rescued|
            && short !! rescued && forall m :: m in short + rescued ==> HasCalls(d, m)
  {
    CountersCount(p, d, opening, months);
    forall m: nat ensures !(ShortAt(p, d, opening, m) && RescuedAt(p, d, opening, m))
                  ensures ShortAt(p, d, opening, m) || RescuedAt(p, d, opening, m) ==> HasCalls(d, m)
    {
    }
  }

  /** The calls of the months among the first `months` that `holds` of. */
  function CallsWhere(d: Draws, holds: nat -> bool, months: nat): nat {
    if months == 0 then 0
    else
      CallsWhere(d, holds, months - 1)
      + if holds(months - 1) && HasCalls(d, months - 1) then |d.calls[months - 1]| else 0
  }

  predicate OneCallEach(d: Draws, months: set<nat>) {
    forall m :: m in months && HasCalls(d, m) ==> |d.calls[m]| == 1
  }

  lemma {:induction false} MonthsAgainstCalls(d: Draws, holds: nat -> bool, months: nat)
    requires forall m: nat :: holds(m) ==> HasCalls(d, m)
    ensures |MonthsWhere(holds, months)| <= CallsWhere(d, holds, months)
    ensures |MonthsWhere(holds, months)| == CallsWhere(d, holds, months) <==> OneCallEach(d, MonthsWhere(holds, months))
  {
    if months > 0 {
      var m: nat := months - 1;
      MonthsAgainstCalls(d, holds, m);
      MonthsWhereGrows(holds, m);
      assert MonthsWhere(holds, months) == MonthsWhere(holds, m) + if holds(m) then {m} else {};
      assert holds(m) ==> HasCalls(d, m) && m in MonthsWhere(holds, months);
    }
  }

  /** The calls of the months that were short: the calls that went unmet, or not wholly met. */
  function UnmetCalls(p: Params, d: Draws, opening: State, months: nat): nat {
    CallsWhere(d, (m: nat) => ShortAt(p, d, opening, m), months)
  }

  /** Months are counted, not calls: never more than the unmet calls, and as many only if no two share a short month. */
  lemma ShortfallsCountCallsIff(p: Params, d: Draws, opening: State, months: nat)
    requires d.Cover(months)
    ensures var counted := Run(p, d, opening, months).shortfalls - opening.shortfalls;
            && counted <= UnmetCalls(p, d, opening, months)
            && (counted == UnmetCalls(p, d, opening, months) <==> OneCallEach(d, ShortMonths(p, d, opening, months)))
  {
    CountersCount(p, d, opening, months);
    MonthsAgainstCalls(d, (m: nat) => ShortAt(p, d, opening, m), months);
  }

  lemma ShortWithoutRungs(p: Params, d: Draws, s: State, m: nat)
    requires m < |d.drift| && s.rungs == [] && HasCalls(d, m) && s.liquid < Needed(d, m) && Needed(d, m) - s.liquid > p.tolerance
    ensures IsShort(p, d, s, m)
  {
    assert MaturityOrder([]) == [];
  }

  function TwoCalls(): Draws {
    Draws(0.0, [1.0], [0.0], map[0 := [1.0, 1.0]])
  }

  lemma TwoCallsNeeded()
    ensures HasCalls(TwoCalls(), 0) && Needed(TwoCalls(), 0) == 2.0
  {
    var calls := [1.0, 1.0];
    assert TwoCalls().calls[0] == calls;
    assert calls[..1] == [1.0] && [1.0][..0] == [];
    assert Sum(calls) == Sum([1.0]) + 1.0 && Sum([1.0]) == Sum([]) + 1.0;
  }

  /** Two calls of one rupee in a month without money: one shortfall, for two unmet calls. */
  lemma TwoCallsCountOnce(p: Params)
    requires p.savingsRatePct == 0.0 && p.tolerance < 2.0
    ensures var opening := State(0.0, [], 0.0, 0, 0);
            Run(p, TwoCalls(), opening, 1).shortfalls == 1 && UnmetCalls(p, TwoCalls(), opening, 1) == 2
  {
    var d, opening := TwoCalls(), State(0.0, [], 0.0, 0, 0);
    TwoCallsNeeded();
    assert Run(p, d, opening, 0) == opening && BeforeCalls(p, d, opening, 0) == opening;
    ShortWithoutRungs(p, d, opening, 0);
    var short := (m: nat) => ShortAt(p, d, opening, m);
    assert short(0);
    assert CallsWhere(d, short, 1) == CallsWhere(d, short, 0) + |d.calls[0]|;
    MonthCounts(p, d, opening, 0);
  }

  // ----- The structural surplus -----

  /** Collections less opex over the first `months` months. */
  function OperatingFlows(p: Params, d: Draws, months: nat): real
    requires months <= |d.collection|
  {
    if months == 0 then 0.0 else OperatingFlows(p, d, months - 1) + Collected(d, months - 1) - Opex(p, d)
  }

  lemma {:induction false} OperatingFlowsAre(p: Params, d: Draws, months: nat)
    requires months <= |d.collection|
    ensures OperatingFlows(p, d, months) == d.dues * Sum(d.collection[..months]) - months as real * Opex(p, d)
  {
    if months > 0 {
      var m := months - 1;
      OperatingFlowsAre(p, d, m);
      assert d.collection[..months][..m] == d.collection[..m];
      assert d.dues * (Sum(d.collection[..m]) + d.collection[m]) == d.dues * Sum(d.collection[..m]) + d.dues * d.collection[m];
      assert months as real * Opex(p, d) == m as real * Opex(p, d) + Opex(p, d);
    }
  }

  /** The reported surplus, times the months that have a collection rate, is what operations bring in over them. */
  lemma StructuralSurplusIsMeanFlow(sp: SimParams, rnd: Randomness)
    requires rnd.Suffices(sp) && rnd.collection != []
    ensures StructuralSurplus(sp, rnd.collection).Some?
    ensures StructuralSurplus(sp, rnd.collection).value * |rnd.collection| as real
         == OperatingFlows(sp.treasury, SharedDraws(sp, rnd), |rnd.collection|)
  {
    OperatingFlowsAre(sp.treasury, SharedDraws(sp, rnd), |rnd.collection|);
    assert rnd.collection[..|rnd.collection|] == rnd.collection;
    MeanTimesCount(Dues(sp), Sum(rnd.collection), |rnd.collection| as real, sp.treasury.opexFraction);
  }

  lemma MeanTimesCount(dues: real, total: real, n: real, fraction: real)
    requires n > 0.0
    ensures dues * (total / n - fraction) * n == dues * total - n * (dues * fraction)
  {
    var mean := total / n;
    assert mean * n == total;
    assert dues * (mean - fraction) * n == dues * (mean * n) - n * (dues * fraction);
  }

  // ----- Bounds on the counts -----

  lemma {:induction false} CountsBounded(p: Params, d: Draws, opening: State, months: nat)
    requires d.Cover(months)
    ensures var s := Run(p, d, opening, months);
            s.shortfalls + s.metViaBreak <= opening.shortfalls + opening.metViaBreak + CallMonths(d, months)
  {
    if months > 0 {
      CountsBounded(p, d, opening, months - 1);
    }
  }

  lemma {:induction false} CallMonthsBounded(d: Draws, months: nat)
    ensures CallMonths(d, months) <= |set m | m in d.calls && m < months|
  {
    if months > 0 {
      CallMonthsBounded(d, months - 1);
      var before := set m | m in d.calls && m < months - 1;
      var after := set m | m in d.calls && m < months;
      if HasCalls(d, months - 1) {
        assert after == before + {months - 1};
      } else {
        assert before <= after;
        SubsetSize(before, after);
      }
    }
  }

  lemma {:induction false} SubsetSize<T>(a: set<T>, b: set<T>)
    requires a <= b
    ensures |a| <= |b|
  {
    assert b == a + (b - a);
  }

  lemma {:induction false} DrawnCallsSize(sp: SimParams, rnd: Randomness, dues: real, n: nat)
    requires rnd.Suffices(sp) && n <= |sp.seasonal|
    ensures |DrawnCalls(sp, rnd, dues, n).Keys| <= n
  {
    if n > 0 {
      DrawnCallsSize(sp, rnd, dues, n - 1);
      var before := DrawnCalls(sp, rnd, dues, n - 1);
      assert DrawnCalls(sp, rnd, dues, n).Keys == before.Keys + {CallMonth(sp, rnd, n - 1)};
    }
  }

  /** The reported shortfall rate is a percentage, and shortfalls and rescues together never exceed the configured calls. */
  lemma ShortfallRateIsAPercentage(sp: SimParams, rnd: Randomness, strategy: string)
    requires rnd.Suffices(sp) && StrategyOutcome(sp, rnd, strategy).Ok?
    ensures var r := StrategyOutcome(sp, rnd, strategy).value;
            && r.shortfallCount + r.metViaBreakCount <= |sp.seasonal|
            && 0.0 <= r.shortfallRatePct <= 100.0
            && (r.anyShortfall == 1.0 <==> r.shortfallRatePct > 0.0) && (r.anyShortfall == 0.0 || r.anyShortfall == 1.0)
  {
    var d := SharedDraws(sp, rnd);
    var opening := Opening(strategy, sp.treasury, Floor(sp), Investable(sp)).value;
    CountsBounded(sp.treasury, d, opening, sp.horizonMonths);
    CallMonthsBounded(d, sp.horizonMonths);
    SubsetSize((set m | m in d.calls && m < sp.horizonMonths), d.calls.Keys);
    DrawnCallsSize(sp, rnd, Dues(sp), |sp.seasonal|);
    var n := if |sp.seasonal| > 1 then |sp.seasonal| as real else 1.0;
    var count := StrategyOutcome(sp, rnd, strategy).value.shortfallCount as real;
    ShareOfWhole(count, n);
  }

  lemma ReportedRate(strategy: string, configuredCalls: nat, s: State)
    ensures var r := Report(strategy, configuredCalls, s);
            r.shortfallRatePct * Max(1.0, configuredCalls as real) == r.shortfallCount as real * 100.0
  {
    var divisor: nat := if configuredCalls > 1 then configuredCalls else 1;
    assert divisor as real == Max(1.0, configuredCalls as real);
    PerHundred(s.shortfalls as real, divisor as real);
  }

  /** The rate is the shortfall count per hundred configured calls, of which there is taken to be at least one. */
  lemma ShortfallRateIsPerHundredCalls(
      strategy: string, p: Params, d: Draws, configuredCalls: nat, months: nat, floor: real, investable: real)
    requires d.Cover(months) && Outcome(strategy, p, d, configuredCalls, months, floor, investable).Ok?
    ensures var r := Outcome(strategy, p, d, configuredCalls, months, floor, investable).value;
            r.shortfallRatePct * Max(1.0, configuredCalls as real) == r.shortfallCount as real * 100.0
  {
    ReportedRate(strategy, configuredCalls, Run(p, d, Opening(strategy, p, floor, investable).value, months));
  }

  lemma PerHundred(part: real, whole: real)
    requires whole > 0.0
    ensures part / whole * 100.0 * whole == part * 100.0
  {
    var share := part / whole;
    assert share * whole == part;
    assert share * 100.0 * whole == share * whole * 100.0;
  }

  /**
    What a strategy reports: its closing float and deposit interest are those of a conserved run, and its counts
    are the short months and the months met only by a break.
   */
  lemma ReportIsOfTheRun(sp: SimParams, rnd: Randomness, strategy: string)
    requires rnd.Suffices(sp) && StrategyOutcome(sp, rnd, strategy).Ok?
    requires !(strategy == "laddered" && sp.treasury.fdLadder == [] && Corpus(sp) > Floor(sp))
    ensures var p, d, months := sp.treasury, SharedDraws(sp, rnd), sp.horizonMonths;
            var r, opening := StrategyOutcome(sp, rnd, strategy).value, Opening(strategy, p, Floor(sp), Investable(sp)).value;
            && r.strategy == strategy
            && r.endingLiquidFloat + Principals(Run(p, d, opening, months).rungs)
               == Max(Corpus(sp), Floor(sp)) + NetFlows(p, d, opening, months) + r.totalInterestEarned
            && r.shortfallCount == |ShortMonths(p, d, opening, months)|
            && r.metViaBreakCount == |RescuedMonths(p, d, opening, months)|
  {
    var p, d := sp.treasury, SharedDraws(sp, rnd);
    WholeRunConservation(strategy, p, d, sp.horizonMonths, Corpus(sp), Floor(sp));
    CountersCount(p, d, Opening(strategy, p, Floor(sp), Investable(sp)).value, sp.horizonMonths);
  }

  lemma ShareOfWhole(part: real, whole: real)
    requires 0.0 <= part <= whole && whole >= 1.0
    ensures 0.0 <= part / whole * 100.0 <= 100.0
    ensures part > 0.0 <==> part / whole * 100.0 > 0.0
  {
    var share := part / whole;
    assert share * whole == part;
    assert (1.0 - share) * whole == whole - part;
    FactorSign(share, whole);
    FactorSign(1.0 - share, whole);
  }

  lemma FactorSign(a: real, b: real)
    requires b > 0.0
    ensures a * b >= 0.0 <==> a >= 0.0
    ensures a * b > 0.0 <==> a > 0.0
  {
  }
}
