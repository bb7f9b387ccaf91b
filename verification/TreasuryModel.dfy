/**
  What one treasury strategy does, month by month, as functions on values.  The imperative engine
  (module TreasuryEngine) is proved to compute exactly these; the theorems of
  TreasuryConservation, TreasuryBreaks, TreasurySchedule and TreasuryComparison are about runs of them.
 */
module TreasuryModel {
  import opened Numerics
  import opened Wrappers
  import S = StableSort

  datatype Tranche = Tranche(tenorMonths: int, annualRatePct: real)

  datatype Params = Params(
    fdLadder: seq<Tranche>,
    savingsRatePct: real,
    opexFraction: real,
    penaltyPctPoints: real,
    tolerance: real)  // residue below which a cash call counts as met; 1e-9 in the source

  /** The draws that every strategy of one iteration shares. */
  datatype Draws = Draws(dues: real, collection: seq<real>, drift: seq<real>, calls: map<int, seq<real>>) {
    predicate Cover(months: nat) {
      months <= |collection| && months <= |drift|
    }
  }

  datatype RungState = RungState(
    tenorMonths: int, ratePct: real, principal: real, maturityMonth: int, investedSince: int)

  datatype State = State(
    liquid: real, rungs: seq<RungState>, interest: real, shortfalls: nat, metViaBreak: nat)

  datatype Error = EmptyLadder | UnknownStrategy(name: string)

  // ----- Opening position -----

  /** The first tranche of the longest tenor. */
  function LongestTranche(ladder: seq<Tranche>): (t: Tranche)
    requires ladder != []
    ensures exists i :: 0 <= i < |ladder| && ladder[i] == t && FirstLongest(ladder, i)
  {
    var last := |ladder| - 1;
    if last == 0 then
      assert FirstLongest(ladder, 0);
      ladder[last]
    else
      var best := LongestTranche(ladder[..last]);
      var i :| 0 <= i < last && ladder[..last][i] == best && FirstLongest(ladder[..last], i);
      assert if ladder[last].tenorMonths > best.tenorMonths then FirstLongest(ladder, last) else FirstLongest(ladder, i);
      if ladder[last].tenorMonths > best.tenorMonths then ladder[last] else best
  }

  predicate FirstLongest(ladder: seq<Tranche>, i: int)
    requires 0 <= i < |ladder|
  {
    && (forall j :: 0 <= j < i ==> ladder[j].tenorMonths < ladder[i].tenorMonths)
    && (forall j :: i <= j < |ladder| ==> ladder[j].tenorMonths <= ladder[i].tenorMonths)
  }

  /** The tranches that a strategy invests in. */
  function TranchesInUse(strategy: string, ladder: seq<Tranche>): seq<Tranche> {
    if strategy == "laddered" then ladder
    else if strategy == "single_maturity" && ladder != [] then [LongestTranche(ladder)]
    else []
  }

  function NewRung(t: Tranche, principal: real): RungState {
    RungState(t.tenorMonths, t.annualRatePct, principal, t.tenorMonths, 0)
  }

  function OpeningRungs(strategy: string, ladder: seq<Tranche>, investable: real): Result<seq<RungState>, Error> {
    if strategy == "all_liquid" then Ok([])
    else if strategy == "single_maturity" then
      if ladder == [] then Err(EmptyLadder) else Ok([NewRung(LongestTranche(ladder), investable)])
    else if strategy == "laddered" then
      Ok(seq(|ladder|, i requires 0 <= i < |ladder| => NewRung(ladder[i], investable / |ladder| as real)))
    else Err(UnknownStrategy(strategy))
  }

  function Opening(strategy: string, p: Params, floor: real, investable: real): Result<State, Error> {
    match OpeningRungs(strategy, p.fdLadder, investable)
    case Err(e) => Err(e)
    case Ok(rungs) =>
      Ok(State(if strategy == "all_liquid" then floor + investable else floor, rungs, 0.0, 0, 0))
  }

  // ----- Flows of a month -----

  function Collected(d: Draws, m: nat): real
    requires m < |d.collection|
  {
    d.dues * d.collection[m]
  }

  function Opex(p: Params, d: Draws): real {
    d.dues * p.opexFraction
  }

  /** Interest on the float after dues and opex; a float at or below zero earns nothing. */
  function SavingsInterest(p: Params, liquid: real): real {
    if liquid > 0.0 then liquid * (p.savingsRatePct / 100.0 / 12.0) else 0.0
  }

  function AfterFlows(p: Params, d: Draws, m: nat, liquid: real): real
    requires m < |d.collection|
  {
    var afterOpex := liquid + Collected(d, m) - Opex(p, d);
    afterOpex + SavingsInterest(p, afterOpex)
  }

  // ----- Maturities -----

  /** A rung reinvested in month `m` for another cycle of its tenor, at the drifted rate. */
  function Rolled(r: RungState, m: int, drift: real, principal: real): RungState {
    RungState(r.tenorMonths, Max(0.0, r.ratePct + drift), principal, m + r.tenorMonths, m)
  }

  function MatureOne(r: RungState, m: int, drift: real): RungState {
    if r.maturityMonth == m then Rolled(r, m, drift, r.principal) else r
  }

  function ContractInterest(r: RungState, heldMonths: int): real {
    r.principal * (r.ratePct / 100.0 / 12.0) * heldMonths as real
  }

  function MaturityInterestOne(r: RungState, m: int): real {
    if r.maturityMonth == m then ContractInterest(r, r.tenorMonths) else 0.0
  }

  function Matured(rungs: seq<RungState>, m: int, drift: real): seq<RungState> {
    seq(|rungs|, i requires 0 <= i < |rungs| => MatureOne(rungs[i], m, drift))
  }

  function MaturityInterest(rungs: seq<RungState>, m: int): real {
    if rungs == [] then 0.0
    else MaturityInterest(rungs[..|rungs| - 1], m) + MaturityInterestOne(rungs[|rungs| - 1], m)
  }

  /** The state in which month `m` meets its cash calls. */
  function BeforeCalls(p: Params, d: Draws, s: State, m: nat): State
    requires m < |d.collection| && m < |d.drift|
  {
    var earned := MaturityInterest(s.rungs, m);
    s.(liquid := AfterFlows(p, d, m, s.liquid) + earned,
    rungs := Matured(s.rungs, m, d.drift[m]),
    interest := s.interest + earned)
  }

  // ----- Cash calls and premature breaks -----

  function MaturesBefore(rungs: seq<RungState>): S.Comparison {
    (i: nat, j: nat) => i < |rungs| && j < |rungs| && rungs[i].maturityMonth < rungs[j].maturityMonth
  }

  /** `sorted(rungs, key=maturity_month)`, as positions. */
  function MaturityOrder(rungs: seq<RungState>): (order: seq<nat>)
    ensures |order| == |rungs| && S.Below(order, |rungs|)
  {
    S.SortMembers(MaturesBefore(rungs), |rungs|);
    S.Sort(MaturesBefore(rungs), |rungs|)
  }

  function HeldMonths(r: RungState, m: int): int {
    if m - r.investedSince >= 0 then m - r.investedSince else 0
  }

  function PenalisedRate(p: Params, r: RungState): real {
    Max(0.0, r.ratePct - p.penaltyPctPoints)
  }

  /** Interest paid on a rung broken in month `m`: the penalised rate for thirty days a month held. */
  function BreakInterest(p: Params, r: RungState, m: int): real {
    r.principal * (PenalisedRate(p, r) / 100.0) * ((HeldMonths(r, m) * 30) as real / 365.0)
  }

  function Proceeds(p: Params, r: RungState, m: int): real {
    r.principal + BreakInterest(p, r, m)
  }

  datatype BreakState = BreakState(rungs: seq<RungState>, shortfall: real, interest: real, used: bool)

  function BreakOne(p: Params, b: BreakState, i: nat, m: int, drift: real): BreakState
    requires i < |b.rungs|
  {
    if b.shortfall <= p.tolerance then b
    else
      var proceeds := Proceeds(p, b.rungs[i], m);
      var use := Min(b.shortfall, proceeds);
      BreakState(
        b.rungs[i := Rolled(b.rungs[i], m, drift, proceeds - use)],
        b.shortfall - use,
        b.interest + BreakInterest(p, b.rungs[i], m),
        true)
  }

  /** The break loop after the first `k` rungs of `order`. */
  function BreakUpTo(p: Params, rungs: seq<RungState>, order: seq<nat>, k: nat, shortfall: real, m: int, drift: real)
    : (b: BreakState)
    requires k <= |order| && S.Below(order, |rungs|)
    ensures |b.rungs| == |rungs|
  {
    if k == 0 then BreakState(rungs, shortfall, 0.0, false)
    else BreakOne(p, BreakUpTo(p, rungs, order, k - 1, shortfall, m, drift), order[k - 1], m, drift)
  }

  function Breaks(p: Params, rungs: seq<RungState>, shortfall: real, m: int, drift: real): (b: BreakState)
    ensures |b.rungs| == |rungs|
  {
    var order := MaturityOrder(rungs);
    BreakUpTo(p, rungs, order, |order|, shortfall, m, drift)
  }

  predicate HasCalls(d: Draws, m: int) {
    m in d.calls && d.calls[m] != []
  }

  function Needed(d: Draws, m: int): real
    requires HasCalls(d, m)
  {
    Sum(d.calls[m])
  }

  function MeetCalls(p: Params, d: Draws, s: State, m: nat): State
    requires m < |d.drift|
  {
    if !HasCalls(d, m) then s
    else if s.liquid >= Needed(d, m) then s.(liquid := s.liquid - Needed(d, m))
    else
      var b := Breaks(p, s.rungs, Needed(d, m) - s.liquid, m, d.drift[m]);
      var met := b.shortfall <= p.tolerance;
      State(0.0, b.rungs, s.interest + b.interest,
            if met then s.shortfalls else s.shortfalls + 1,
            if met && b.used then s.metViaBreak + 1 else s.metViaBreak)
  }

  // ----- Whole runs -----

  function Month(p: Params, d: Draws, s: State, m: nat): State
    requires m < |d.collection| && m < |d.drift|
  {
    MeetCalls(p, d, BeforeCalls(p, d, s, m), m)
  }

  function Run(p: Params, d: Draws, opening: State, months: nat): State
    requires d.Cover(months)
  {
    if months == 0 then opening else Month(p, d, Run(p, d, opening, months - 1), months - 1)
  }

  /** Whatever the opening satisfies and every month keeps, a run satisfies at its end. */
  lemma {:induction false} RunInvariant(
      inv: (State, nat) -> bool, p: Params, d: Draws, opening: State, months: nat)
    requires d.Cover(months) && inv(opening, 0)
    requires forall s: State, m: nat :: inv(s, m) && m < months ==> inv(Month(p, d, s, m), m + 1)
    ensures inv(Run(p, d, opening, months), months)
  {
    if months > 0 {
      RunInvariant(inv, p, d, opening, months - 1);
    }
  }

  lemma RunNext(p: Params, d: Draws, opening: State, m: nat, before: State, after: State)
    requires d.Cover(m + 1) && Run(p, d, opening, m) == before && Month(p, d, before, m) == after
    ensures Run(p, d, opening, m + 1) == after
  {
  }

  // ----- What the theorems talk about -----

  function Principals(rungs: seq<RungState>): real {
    if rungs == [] then 0.0 else Principals(rungs[..|rungs| - 1]) + rungs[|rungs| - 1].principal
  }

  function Wealth(s: State): real {
    s.liquid + Principals(s.rungs)
  }

  /** The part of month `m`'s call that neither the float nor any rung paid. */
  function Unmet(p: Params, d: Draws, s: State, m: nat): real
    requires m < |d.drift|
  {
    if !HasCalls(d, m) || s.liquid >= Needed(d, m) then 0.0
    else Breaks(p, s.rungs, Needed(d, m) - s.liquid, m, d.drift[m]).shortfall
  }

  /** Month `m` counts as a shortfall. */
  predicate IsShort(p: Params, d: Draws, s: State, m: nat)
    requires m < |d.drift|
  {
    HasCalls(d, m) && s.liquid < Needed(d, m) && Unmet(p, d, s, m) > p.tolerance
  }

  function CallTotal(d: Draws, m: int): real {
    if HasCalls(d, m) then Needed(d, m) else 0.0
  }

  /** Dues less opex, plus savings interest, less calls, plus what the calls left unmet: month `m`'s net inflow apart from deposit interest. */
  function NetFlow(p: Params, d: Draws, s: State, m: nat): real
    requires m < |d.collection| && m < |d.drift|
  {
    Collected(d, m) - Opex(p, d)
    + SavingsInterest(p, s.liquid + Collected(d, m) - Opex(p, d))
    - CallTotal(d, m)
    + Unmet(p, d, BeforeCalls(p, d, s, m), m)
  }

  function NetFlows(p: Params, d: Draws, opening: State, months: nat): real
    requires d.Cover(months)
  {
    if months == 0 then 0.0
    else NetFlows(p, d, opening, months - 1) + NetFlow(p, d, Run(p, d, opening, months - 1), months - 1)
  }

  function CallMonths(d: Draws, months: nat): nat {
    if months == 0 then 0 else CallMonths(d, months - 1) + if HasCalls(d, months - 1) then 1 else 0
  }
}
