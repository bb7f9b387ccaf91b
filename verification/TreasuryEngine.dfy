/** The treasury engine as it runs: mutable deposit rungs, updated in place month after month. */
module TreasuryEngine {
  import opened Numerics
  import opened Wrappers
  import opened TreasuryModel
  import S = StableSort

  class Rung {
    const tenorMonths: int
    var ratePct: real
    var principal: real
    var maturityMonth: int
    var investedSince: int

    constructor (tenorMonths: int, ratePct: real, principal: real)
      ensures View() == RungState(tenorMonths, ratePct, principal, tenorMonths, 0)
    {
      this.tenorMonths, this.ratePct, this.principal := tenorMonths, ratePct, principal;
      maturityMonth, investedSince := tenorMonths, 0;
    }

    function View(): RungState
      reads this
    {
      RungState(tenorMonths, ratePct, principal, maturityMonth, investedSince)
    }

    /** Reinvests `newPrincipal` in month `m` for another cycle, at the drifted rate. */
    method Reinvest(m: int, drift: real, newPrincipal: real)
      modifies this
      ensures View() == Rolled(old(View()), m, drift, newPrincipal)
    {
      var newRate := Max(0.0, ratePct + drift);
      principal := newPrincipal;
      ratePct := newRate;
      maturityMonth := m + tenorMonths;
      investedSince := m;
    }
  }

  predicate Distinct(rungs: seq<Rung>) {
    forall i, j :: 0 <= i < j < |rungs| ==> rungs[i] != rungs[j]
  }

  function Views(rungs: seq<Rung>): (views: seq<RungState>)
    reads rungs
    ensures |views| == |rungs| && forall i :: 0 <= i < |rungs| ==> views[i] == rungs[i].View()
  {
    seq(|rungs|, i requires 0 <= i < |rungs| reads rungs => rungs[i].View())
  }

  /** Reinvests one rung of several; the others stay as they are. */
  method ReinvestAt(rungs: seq<Rung>, i: nat, m: int, drift: real, newPrincipal: real)
    requires Distinct(rungs) && i < |rungs|
    modifies rungs[i]
    ensures Views(rungs) == old(Views(rungs))[i := Rolled(old(Views(rungs))[i], m, drift, newPrincipal)]
  {
    rungs[i].Reinvest(m, drift, newPrincipal);
  }

  method MakeRungs(strategy: string, ladder: seq<Tranche>, investable: real) returns (r: Result<seq<Rung>, Error>)
    ensures r.Err? ==> OpeningRungs(strategy, ladder, investable) == Err(r.error)
    ensures r.Ok? ==> Distinct(r.value) && OpeningRungs(strategy, ladder, investable) == Ok(Views(r.value))
    ensures r.Ok? ==> forall i :: 0 <= i < |r.value| ==> fresh(r.value[i])
  {
    if strategy == "all_liquid" {
      return Ok([]);
    }
    if strategy == "single_maturity" {
      if ladder == [] {
        return Err(EmptyLadder);
      }
      var longest := LongestTranche(ladder);
      var rung := new Rung(longest.tenorMonths, longest.annualRatePct, investable);
      var rungs := [rung];
      assert Views(rungs) == [NewRung(longest, investable)];
      return Ok(rungs);
    }
    if strategy == "laddered" {
      var perRung := if |ladder| > 0 then investable / |ladder| as real else 0.0;
      var rungs: seq<Rung> := [];
      for i := 0 to |ladder|
        invariant |rungs| == i && Distinct(rungs)
        invariant forall k :: 0 <= k < i ==> fresh(rungs[k]) && rungs[k].View() == NewRung(ladder[k], perRung)
      {
        var rung := new Rung(ladder[i].tenorMonths, ladder[i].annualRatePct, perRung);
        rungs := rungs + [rung];
      }
      assert Views(rungs) == OpeningRungs(strategy, ladder, investable).value;
      return Ok(rungs);
    }
    return Err(UnknownStrategy(strategy));
  }

  /** The rungs when the first `k` have been checked for maturity. */
  function MaturedUpTo(rungs: seq<RungState>, k: nat, m: int, drift: real): seq<RungState>
    requires k <= |rungs|
  {
    seq(|rungs|, i requires 0 <= i < |rungs| => if i < k then MatureOne(rungs[i], m, drift) else rungs[i])
  }

  lemma MaturedStep(rungs: seq<RungState>, k: nat, m: int, drift: real)
    requires k < |rungs|
    ensures var before := MaturedUpTo(rungs, k, m, drift);
            && before[k] == rungs[k]
            && MaturedUpTo(rungs, k + 1, m, drift) == before[k := MatureOne(rungs[k], m, drift)]
    ensures MaturityInterest(rungs[..k + 1], m) == MaturityInterest(rungs[..k], m) + MaturityInterestOne(rungs[k], m)
  {
    assert rungs[..k + 1][..k] == rungs[..k];
  }

  /** Pays out and rolls over every rung that matures in month `m`. */
  method MatureRungs(rungs: seq<Rung>, m: int, drift: real, liquid: real, interest: real)
    returns (newLiquid: real, newInterest: real)
    requires Distinct(rungs)
    modifies rungs
    ensures Views(rungs) == Matured(old(Views(rungs)), m, drift)
    ensures newLiquid == liquid + MaturityInterest(old(Views(rungs)), m)
    ensures newInterest == interest + MaturityInterest(old(Views(rungs)), m)
  {
    newLiquid, newInterest := liquid, interest;
    ghost var was := Views(rungs);
    for k := 0 to |rungs|
      invariant Views(rungs) == MaturedUpTo(was, k, m, drift)
      invariant newLiquid == liquid + MaturityInterest(was[..k], m)
      invariant newInterest == interest + MaturityInterest(was[..k], m)
    {
      MaturedStep(was, k, m, drift);
      assert Views(rungs)[k] == rungs[k].View();
      newLiquid, newInterest := MatureRung(rungs, k, m, drift, newLiquid, newInterest);
    }
    assert was[..|rungs|] == was;
  }

  /** A rung that matures pays its interest; its principal passes through the float into the next cycle. */
  method MatureRung(rungs: seq<Rung>, k: nat, m: int, drift: real, liquid: real, interest: real)
    returns (newLiquid: real, newInterest: real)
    requires Distinct(rungs) && k < |rungs|
    modifies rungs[k]
    ensures Views(rungs) == old(Views(rungs))[k := MatureOne(old(rungs[k].View()), m, drift)]
    ensures newLiquid == liquid + MaturityInterestOne(old(rungs[k].View()), m)
    ensures newInterest == interest + MaturityInterestOne(old(rungs[k].View()), m)
  {
    newLiquid, newInterest := liquid, interest;
    var rung := rungs[k];
    if rung.maturityMonth == m {
      var earned := rung.principal * (rung.ratePct / 100.0 / 12.0) * rung.tenorMonths as real;
      newInterest := newInterest + earned;
      newLiquid := newLiquid + rung.principal + earned;
      newLiquid := newLiquid - rung.principal;
      ReinvestAt(rungs, k, m, drift, rung.principal);
    }
  }

  /** Breaks rungs, soonest-maturing first, until the shortfall is gone or every rung has been broken. */
  method BreakRungs(p: Params, rungs: seq<Rung>, initial: real, m: int, drift: real)
    returns (shortfall: real, interest: real, used: bool)
    requires Distinct(rungs)
    modifies rungs
    ensures BreakState(Views(rungs), shortfall, interest, used)
         == Breaks(p, old(Views(rungs)), initial, m, drift)
  {
    shortfall, interest, used := initial, 0.0, false;
    ghost var was := Views(rungs);
    var order := MaturityOrder(Views(rungs));
    var k := 0;
    while k < |order| && shortfall > p.tolerance
      invariant k <= |order|
      invariant BreakState(Views(rungs), shortfall, interest, used) == BreakUpTo(p, was, order, k, initial, m, drift)
    {
      shortfall, interest := BreakRung(p, rungs, order[k], m, drift, shortfall, interest, used);
      used := true;
      k := k + 1;
    }
    SettledStays(p, was, order, k, |order|, initial, m, drift);
  }

  /** Breaks one rung: its proceeds go towards the shortfall, what remains is reinvested. */
  method BreakRung(
      p: Params, rungs: seq<Rung>, i: nat, m: int, drift: real, shortfall: real, interest: real, ghost used: bool)
    returns (newShortfall: real, newInterest: real)
    requires Distinct(rungs) && i < |rungs| && shortfall > p.tolerance
    modifies rungs[i]
    ensures BreakState(Views(rungs), newShortfall, newInterest, true)
         == BreakOne(p, BreakState(old(Views(rungs)), shortfall, interest, used), i, m, drift)
  {
    var rung := rungs[i];
    var proceeds := Proceeds(p, rung.View(), m);
    newInterest := interest + BreakInterest(p, rung.View(), m);
    var useNow := Min(shortfall, proceeds);
    newShortfall := shortfall - useNow;
    ReinvestAt(rungs, i, m, drift, proceeds - useNow);
  }

  /** Once the shortfall is settled, the remaining rungs are not touched: stopping there loses nothing. */
  lemma {:induction false} SettledStays(
      p: Params, rungs: seq<RungState>, order: seq<nat>, k: nat, n: nat, shortfall: real, m: int, drift: real)
    requires k <= n <= |order| && S.Below(order, |rungs|)
    requires k < n ==> BreakUpTo(p, rungs, order, k, shortfall, m, drift).shortfall <= p.tolerance
    ensures BreakUpTo(p, rungs, order, n, shortfall, m, drift) == BreakUpTo(p, rungs, order, k, shortfall, m, drift)
  {
    if k < n {
      SettledStays(p, rungs, order, k, n - 1, shortfall, m, drift);
    }
  }

  datatype StrategyResult = StrategyResult(
    strategy: string, totalInterestEarned: real, shortfallCount: nat, metViaBreakCount: nat,
    shortfallRatePct: real, anyShortfall: real, endingLiquidFloat: real)

  function Report(strategy: string, configuredCalls: nat, s: State): StrategyResult {
    var divisor := if configuredCalls > 1 then configuredCalls else 1;
    StrategyResult(
      strategy, s.interest, s.shortfalls, s.metViaBreak,
      s.shortfalls as real / divisor as real * 100.0,
      if s.shortfalls > 0 then 1.0 else 0.0,
      s.liquid)
  }

  function Outcome(strategy: string, p: Params, d: Draws, configuredCalls: nat, months: nat, floor: real, investable: real)
    : Result<StrategyResult, Error>
    requires d.Cover(months)
  {
    match Opening(strategy, p, floor, investable)
    case Err(e) => Err(e)
    case Ok(opening) => Ok(Report(strategy, configuredCalls, Run(p, d, opening, months)))
  }

  /** Dues in, opex out, savings interest on a positive float. */
  method ApplyFlows(p: Params, d: Draws, m: nat, liquid: real) returns (newLiquid: real)
    requires m < |d.collection|
    ensures newLiquid == AfterFlows(p, d, m, liquid)
  {
    var savingsMonthlyRate := p.savingsRatePct / 100.0 / 12.0;
    var collected := d.dues * d.collection[m];
    newLiquid := liquid + collected;
    newLiquid := newLiquid - d.dues * p.opexFraction;
    if newLiquid > 0.0 {
      newLiquid := newLiquid + newLiquid * savingsMonthlyRate;
    }
  }

  /** Pays month `m`'s cash calls from the float, or else by breaking deposits. */
  method PayCalls(
      p: Params, d: Draws, rungs: seq<Rung>, m: nat, ghost s: State,
      liquid: real, interest: real, shortfalls: nat, metViaBreak: nat)
    returns (newLiquid: real, newInterest: real, newShortfalls: nat, newMetViaBreak: nat)
    requires Distinct(rungs) && m < |d.drift|
    requires s == State(liquid, Views(rungs), interest, shortfalls, metViaBreak)
    modifies rungs
    ensures MeetCalls(p, d, s, m) == State(newLiquid, Views(rungs), newInterest, newShortfalls, newMetViaBreak)
  {
    newLiquid, newInterest, newShortfalls, newMetViaBreak := liquid, interest, shortfalls, metViaBreak;
    if !HasCalls(d, m) {
      return;
    }
    var needed := Sum(d.calls[m]);
    if liquid >= needed {
      newLiquid := liquid - needed;
      return;
    }
    var shortfall, earned, used := BreakRungs(p, rungs, needed - liquid, m, d.drift[m]);
    newLiquid := 0.0;
    newInterest := interest + earned;
    if shortfall <= p.tolerance {
      if used {
        newMetViaBreak := metViaBreak + 1;
      }
    } else {
      newShortfalls := shortfalls + 1;
    }
  }

  /** One month: flows, maturities, cash calls. */
  method RunMonth(
      p: Params, d: Draws, rungs: seq<Rung>, m: nat, ghost s: State,
      liquid: real, interest: real, shortfalls: nat, metViaBreak: nat)
    returns (newLiquid: real, newInterest: real, newShortfalls: nat, newMetViaBreak: nat)
    requires Distinct(rungs) && m < |d.collection| && m < |d.drift|
    requires s == State(liquid, Views(rungs), interest, shortfalls, metViaBreak)
    modifies rungs
    ensures Month(p, d, s, m) == State(newLiquid, Views(rungs), newInterest, newShortfalls, newMetViaBreak)
  {
    newLiquid := ApplyFlows(p, d, m, liquid);
    newLiquid, newInterest := MatureRungs(rungs, m, d.drift[m], newLiquid, interest);
    newLiquid, newInterest, newShortfalls, newMetViaBreak :=
      PayCalls(p, d, rungs, m, BeforeCalls(p, d, s, m), newLiquid, newInterest, shortfalls, metViaBreak);
  }

  /** One strategy over the whole horizon: the loop over mutable rungs computes the run of the model. */
  method RunOneStrategy(
      strategy: string, p: Params, d: Draws, configuredCalls: nat, months: nat, floor: real, investable: real)
    returns (r: Result<StrategyResult, Error>)
    requires d.Cover(months)
    ensures r == Outcome(strategy, p, d, configuredCalls, months, floor, investable)
  {
    var made := MakeRungs(strategy, p.fdLadder, investable);
    if made.Err? {
      return Err(made.error);
    }
    var rungs := made.value;
    var liquid := if strategy == "all_liquid" then floor + investable else floor;
    var interest, shortfalls: nat, metViaBreak: nat := 0.0, 0, 0;
    ghost var opening := State(liquid, Views(rungs), interest, 0, 0);

    for m := 0 to months
      invariant forall i :: 0 <= i < |rungs| ==> fresh(rungs[i])
      invariant State(liquid, Views(rungs), interest, shortfalls, metViaBreak) == Run(p, d, opening, m)
    {
      liquid, interest, shortfalls, metViaBreak :=
        RunMonth(p, d, rungs, m, Run(p, d, opening, m), liquid, interest, shortfalls, metViaBreak);
    }
    r := Ok(Report(strategy, configuredCalls, State(liquid, Views(rungs), interest, shortfalls, metViaBreak)));
  }

  // ----- Shared draws and the comparison of strategies -----

  datatype Seasonal = Seasonal(month: int, multiple: real)

  datatype SimParams = SimParams(
    treasury: Params,
    horizonMonths: nat,
    monthlyDuePerFlat: real,
    flats: nat,
    corpusMonthsOfDues: real,
    floatFloorMonths: real,
    seasonal: seq<Seasonal>,
    jitterMonths: int,
    sizeSigma: real,
    strategies: seq<string>)

  /** One iteration's random numbers, as delivered by the generator. */
  datatype Randomness = Randomness(collection: seq<real>, drift: seq<real>, shifts: seq<int>, factors: seq<real>) {
    predicate Suffices(sp: SimParams) {
      && sp.horizonMonths <= |collection| && sp.horizonMonths <= |drift|
      && |sp.seasonal| <= |shifts| && |sp.seasonal| <= |factors|
    }
  }

  function CallMonth(sp: SimParams, rnd: Randomness, i: nat): int
    requires rnd.Suffices(sp) && i < |sp.seasonal|
  {
    var shifted := sp.seasonal[i].month + if sp.jitterMonths > 0 then rnd.shifts[i] else 0;
    var floored := if shifted >= 0 then shifted else 0;
    if floored <= sp.horizonMonths - 1 then floored else sp.horizonMonths - 1
  }

  function CallAmount(sp: SimParams, rnd: Randomness, dues: real, i: nat): real
    requires rnd.Suffices(sp) && i < |sp.seasonal|
  {
    sp.seasonal[i].multiple * dues * if sp.sizeSigma > 0.0 then rnd.factors[i] else 1.0
  }

  /** `setdefault(month, []).append(amount)`. */
  function AddCall(calls: map<int, seq<real>>, month: int, amount: real): map<int, seq<real>> {
    calls[month := (if month in calls then calls[month] else []) + [amount]]
  }

  function DrawnCalls(sp: SimParams, rnd: Randomness, dues: real, n: nat): map<int, seq<real>>
    requires rnd.Suffices(sp) && n <= |sp.seasonal|
  {
    if n == 0 then map[]
    else AddCall(DrawnCalls(sp, rnd, dues, n - 1), CallMonth(sp, rnd, n - 1), CallAmount(sp, rnd, dues, n - 1))
  }

  method DrawCommonInputs(sp: SimParams, rnd: Randomness, dues: real) returns (d: Draws)
    requires rnd.Suffices(sp)
    ensures d == Draws(dues, rnd.collection, rnd.drift, DrawnCalls(sp, rnd, dues, |sp.seasonal|))
  {
    var calls: map<int, seq<real>> := map[];
    for i := 0 to |sp.seasonal|
      invariant calls == DrawnCalls(sp, rnd, dues, i)
    {
      var shift := if sp.jitterMonths > 0 then rnd.shifts[i] else 0;
      var shifted := sp.seasonal[i].month + shift;
      var floored := if shifted >= 0 then shifted else 0;
      var actualMonth := if floored <= sp.horizonMonths - 1 then floored else sp.horizonMonths - 1;
      var sizeFactor := if sp.sizeSigma > 0.0 then rnd.factors[i] else 1.0;
      var amount := sp.seasonal[i].multiple * dues * sizeFactor;
      if actualMonth !in calls {
        calls := calls[actualMonth := []];
      }
      calls := calls[actualMonth := calls[actualMonth] + [amount]];
      assert actualMonth == CallMonth(sp, rnd, i) && amount == CallAmount(sp, rnd, dues, i);
      assert calls == AddCall(DrawnCalls(sp, rnd, dues, i), actualMonth, amount);
    }
    d := Draws(dues, rnd.collection, rnd.drift, calls);
  }

  function Dues(sp: SimParams): real {
    sp.monthlyDuePerFlat * sp.flats as real
  }

  function Corpus(sp: SimParams): real {
    sp.corpusMonthsOfDues * Dues(sp)
  }

  function Floor(sp: SimParams): real {
    sp.floatFloorMonths * Dues(sp)
  }

  function Investable(sp: SimParams): real {
    Max(0.0, Corpus(sp) - Floor(sp))
  }

  function SharedDraws(sp: SimParams, rnd: Randomness): (d: Draws)
    requires rnd.Suffices(sp)
    ensures d.Cover(sp.horizonMonths)
  {
    Draws(Dues(sp), rnd.collection, rnd.drift, DrawnCalls(sp, rnd, Dues(sp), |sp.seasonal|))
  }

  function StrategyOutcome(sp: SimParams, rnd: Randomness, strategy: string): Result<StrategyResult, Error>
    requires rnd.Suffices(sp)
  {
    Outcome(strategy, sp.treasury, SharedDraws(sp, rnd), |sp.seasonal|, sp.horizonMonths, Floor(sp), Investable(sp))
  }

  /** Every configured strategy in turn, from the same position and on the same draws. */
  method RunStrategies(sp: SimParams, rnd: Randomness, d: Draws, floor: real, investable: real)
    returns (r: Result<map<string, StrategyResult>, Error>)
    requires rnd.Suffices(sp) && d == SharedDraws(sp, rnd) && floor == Floor(sp) && investable == Investable(sp)
    ensures r.Ok? ==>
      && r.value.Keys == set s | s in sp.strategies
      && forall s :: s in r.value ==> StrategyOutcome(sp, rnd, s) == Ok(r.value[s])
    ensures r.Err? ==> (exists k :: 0 <= k < |sp.strategies|
                                    && StrategyOutcome(sp, rnd, sp.strategies[k]) == Err(r.error)
                                    && forall j :: 0 <= j < k ==> StrategyOutcome(sp, rnd, sp.strategies[j]).Ok?)
  {
    var results: map<string, StrategyResult> := map[];
    for i := 0 to |sp.strategies|
      invariant results.Keys == set s | s in sp.strategies[..i]
      invariant forall j :: 0 <= j < i ==> StrategyOutcome(sp, rnd, sp.strategies[j]).Ok?
      invariant forall s :: s in results ==> StrategyOutcome(sp, rnd, s) == Ok(results[s])
    {
      var strategy := sp.strategies[i];
      var one := RunOneStrategy(strategy, sp.treasury, d, |sp.seasonal|, sp.horizonMonths, floor, investable);
      assert one == StrategyOutcome(sp, rnd, strategy);
      if one.Err? {
        return Err(one.error);
      }
      assert sp.strategies[..i + 1] == sp.strategies[..i] + [strategy];
      results := results[strategy := one.value];
    }
    assert sp.strategies[..|sp.strategies|] == sp.strategies;
    r := Ok(results);
  }

  /** Mean collections less opex, a month; not a number when there is no collection rate at all. */
  function StructuralSurplus(sp: SimParams, collection: seq<real>): Option<real> {
    if collection == [] then None
    else Some(Dues(sp) * (Sum(collection) / |collection| as real - sp.treasury.opexFraction))
  }

  datatype TreasuryResult = TreasuryResult(strategies: map<string, StrategyResult>, structuralSurplus: Option<real>)

  /** Every configured strategy, on the same draws; the first strategy that cannot start raises. */
  method SimulateTreasury(sp: SimParams, rnd: Randomness) returns (r: Result<TreasuryResult, Error>)
    requires rnd.Suffices(sp)
    ensures r.Ok? ==>
      && r.value.strategies.Keys == (set s | s in sp.strategies)
      && r.value.structuralSurplus == StructuralSurplus(sp, rnd.collection)
      && forall s :: s in r.value.strategies ==> StrategyOutcome(sp, rnd, s) == Ok(r.value.strategies[s])
    ensures r.Err? ==> (exists k :: 0 <= k < |sp.strategies|
                                    && StrategyOutcome(sp, rnd, sp.strategies[k]) == Err(r.error)
                                    && forall j :: 0 <= j < k ==> StrategyOutcome(sp, rnd, sp.strategies[j]).Ok?)
  {
    var dues := sp.monthlyDuePerFlat * sp.flats as real;
    var corpus := sp.corpusMonthsOfDues * dues;
    var floor := sp.floatFloorMonths * dues;
    var investable := Max(0.0, corpus - floor);
    var d := DrawCommonInputs(sp, rnd, dues);
    var strategies := RunStrategies(sp, rnd, d, floor, investable);
    if strategies.Err? {
      return Err(strategies.error);
    }
    r := Ok(TreasuryResult(strategies.value, StructuralSurplus(sp, rnd.collection)));
  }
}
