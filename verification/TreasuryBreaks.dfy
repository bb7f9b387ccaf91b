/** The break loop draws deposits down greedily, soonest-maturing first, and no further than it must. */
module TreasuryBreaks {
  import opened Numerics
  import opened Wrappers
  import opened TreasuryModel
  import S = StableSort

  // ----- The order in which rungs are broken -----

  /** Rung `i` is broken before rung `j`: it matures sooner, or in the same month and stands first. */
  predicate Before(rungs: seq<RungState>, i: nat, j: nat)
    requires i < |rungs| && j < |rungs|
  {
    rungs[i].maturityMonth < rungs[j].maturityMonth
    || (rungs[i].maturityMonth == rungs[j].maturityMonth && i < j)
  }

  lemma BeforeIsAhead(rungs: seq<RungState>)
    ensures S.WeakOrder(MaturesBefore(rungs), |rungs|)
    ensures forall i: nat, j: nat :: i < |rungs| && j < |rungs| ==> (Before(rungs, i, j) <==> S.Ahead(MaturesBefore(rungs), i, j))
  {
  }

  ghost predicate Ordered(rungs: seq<RungState>, order: seq<nat>)
    requires S.Below(order, |rungs|)
  {
    forall a, b :: 0 <= a < b < |order| ==> Before(rungs, order[a], order[b])
  }

  function ProceedsOf(p: Params, rungs: seq<RungState>, m: int): nat -> real {
    (i: nat) => if i < |rungs| then Proceeds(p, rungs[i], m) else 0.0
  }

  function ProceedsOver(p: Params, rungs: seq<RungState>, order: seq<nat>, m: int): real {
    S.SumOver(order, ProceedsOf(p, rungs, m))
  }

  function TotalProceeds(p: Params, rungs: seq<RungState>, m: int): real {
    S.SumBelow(|rungs|, ProceedsOf(p, rungs, m))
  }

  /** The break order lists every rung exactly once, ascending in maturity month, ties in ladder order. */
  lemma MaturityOrderCorrect(p: Params, rungs: seq<RungState>, m: int)
    ensures var order := MaturityOrder(rungs);
            && Ordered(rungs, order)
            && (forall j: nat :: j in order <==> j < |rungs|)
            && ProceedsOver(p, rungs, order, m) == TotalProceeds(p, rungs, m)
  {
    BeforeIsAhead(rungs);
    S.SortSorts(MaturesBefore(rungs), |rungs|);
    S.SortMembers(MaturesBefore(rungs), |rungs|);
    S.SortSum(MaturesBefore(rungs), |rungs|, ProceedsOf(p, rungs, m));
  }

  // ----- The draw-down -----

  ghost predicate NonNegative(rungs: seq<RungState>) {
    forall i :: 0 <= i < |rungs| ==> rungs[i].principal >= 0.0
  }

  lemma BreakInterestNonNegative(p: Params, r: RungState, m: int)
    requires r.principal >= 0.0
    ensures BreakInterest(p, r, m) >= 0.0
  {
    assert r.principal * (PenalisedRate(p, r) / 100.0) >= 0.0;
  }

  /**
    The first `c` rungs of `order` were broken and the rest left alone; each broken rung keeps only what
    the rungs up to it yield beyond the shortfall.
   */
  ghost predicate DrawnDown(
      p: Params, rungs: seq<RungState>, order: seq<nat>, shortfall: real, m: int, drift: real, b: BreakState, c: nat)
    requires c <= |order| && S.Below(order, |rungs|) && |b.rungs| == |rungs|
  {
    && b.shortfall == Max(0.0, shortfall - ProceedsOver(p, rungs, order[..c], m))
    && (forall t :: 0 <= t < c ==>
      shortfall - ProceedsOver(p, rungs, order[..t], m) > p.tolerance
      && b.rungs[order[t]] == Rolled(
        rungs[order[t]], m, drift, Max(0.0, ProceedsOver(p, rungs, order[..t + 1], m) - shortfall)))
    && (forall t :: c <= t < |order| ==> b.rungs[order[t]] == rungs[order[t]])
  }

  lemma {:induction false} BreakUpToDrawsDown(
      p: Params, rungs: seq<RungState>, order: seq<nat>, k: nat, shortfall: real, m: int, drift: real)
    returns (c: nat)
    requires k <= |order| && S.Below(order, |rungs|) && Ordered(rungs, order)
    requires NonNegative(rungs) && p.tolerance >= 0.0 && shortfall >= 0.0
    ensures c <= k && DrawnDown(p, rungs, order, shortfall, m, drift, BreakUpTo(p, rungs, order, k, shortfall, m, drift), c)
    ensures c < k ==> BreakUpTo(p, rungs, order, k, shortfall, m, drift).shortfall <= p.tolerance
  {
    if k == 0 {
      assert order[..0] == [];
      return 0;
    }
    c := BreakUpToDrawsDown(p, rungs, order, k - 1, shortfall, m, drift);
    var b := BreakUpTo(p, rungs, order, k - 1, shortfall, m, drift);
    if b.shortfall > p.tolerance {
      DrawnDownStep(p, rungs, order, k - 1, shortfall, m, drift, b);
      c := k;
    }
  }

  lemma DrawnDownStep(
      p: Params, rungs: seq<RungState>, order: seq<nat>, c: nat, shortfall: real, m: int, drift: real, b: BreakState)
    requires c < |order| && S.Below(order, |rungs|) && Ordered(rungs, order) && |b.rungs| == |rungs|
    requires NonNegative(rungs) && b.shortfall > p.tolerance >= 0.0
    requires DrawnDown(p, rungs, order, shortfall, m, drift, b, c)
    ensures DrawnDown(p, rungs, order, shortfall, m, drift, BreakOne(p, b, order[c], m, drift), c + 1)
  {
    var i, next := order[c], BreakOne(p, b, order[c], m, drift);
    assert b.rungs[i] == rungs[i];
    assert order[..c + 1][..c] == order[..c];
    BreakInterestNonNegative(p, rungs[i], m);
    assert next.shortfall == Max(0.0, shortfall - ProceedsOver(p, rungs, order[..c + 1], m));
    forall t | 0 <= t < |order| && t != c ensures next.rungs[order[t]] == b.rungs[order[t]] {
      assert if t < c then Before(rungs, order[t], i) else Before(rungs, i, order[t]);
    }
  }

  /** What a broken float leaves behind: greedy from the front of the maturity order. */
  lemma BreaksDrawDown(p: Params, rungs: seq<RungState>, shortfall: real, m: int, drift: real) returns (c: nat)
    requires NonNegative(rungs) && p.tolerance >= 0.0 && shortfall >= 0.0
    ensures c <= |MaturityOrder(rungs)|
    ensures DrawnDown(p, rungs, MaturityOrder(rungs), shortfall, m, drift, Breaks(p, rungs, shortfall, m, drift), c)
    ensures c < |MaturityOrder(rungs)| ==> Breaks(p, rungs, shortfall, m, drift).shortfall <= p.tolerance
  {
    var order := MaturityOrder(rungs);
    MaturityOrderCorrect(p, rungs, m);
    c := BreakUpToDrawsDown(p, rungs, order, |order|, shortfall, m, drift);
  }

  lemma {:induction false} ProceedsGrow(p: Params, rungs: seq<RungState>, order: seq<nat>, s: nat, t: nat, m: int)
    requires s <= t <= |order| && S.Below(order, |rungs|) && NonNegative(rungs)
    ensures ProceedsOver(p, rungs, order[..s], m) <= ProceedsOver(p, rungs, order[..t], m)
  {
    if s < t {
      ProceedsGrow(p, rungs, order, s, t - 1, m);
      BreakInterestNonNegative(p, rungs[order[t - 1]], m);
      assert order[..t][..t - 1] == order[..t - 1];
    }
  }

  /** The shortfall that remains is what the proceeds of all rungs cannot cover, up to the tolerance. */
  lemma BreaksComplete(p: Params, rungs: seq<RungState>, shortfall: real, m: int, drift: real)
    requires NonNegative(rungs) && p.tolerance >= 0.0 && shortfall > 0.0
    ensures var b := Breaks(p, rungs, shortfall, m, drift);
            && 0.0 <= b.shortfall
            && (b.shortfall > p.tolerance <==> shortfall - TotalProceeds(p, rungs, m) > p.tolerance)
            && (b.shortfall > p.tolerance ==> b.shortfall == shortfall - TotalProceeds(p, rungs, m))
  {
    var order := MaturityOrder(rungs);
    MaturityOrderCorrect(p, rungs, m);
    var c := BreaksDrawDown(p, rungs, shortfall, m, drift);
    assert order[..|order|] == order;
    ProceedsGrow(p, rungs, order, c, |order|, m);
  }

  /** A rung is touched only once every rung ahead of it is empty, and no rung goes negative. */
  lemma BreakTouchesInOrder(p: Params, rungs: seq<RungState>, shortfall: real, m: int, drift: real, i: nat, j: nat)
    requires NonNegative(rungs) && p.tolerance >= 0.0 && shortfall > 0.0
    requires i < |rungs| && j < |rungs|
    ensures var b := Breaks(p, rungs, shortfall, m, drift);
            && b.rungs[i].principal >= 0.0
            && (b.shortfall > p.tolerance ==> b.rungs[i].principal == 0.0)
            && (Before(rungs, i, j) && b.rungs[j] != rungs[j] ==> b.rungs[i].principal == 0.0)
  {
    var order := MaturityOrder(rungs);
    MaturityOrderCorrect(p, rungs, m);
    var c := BreaksDrawDown(p, rungs, shortfall, m, drift);
    var s := S.PlaceOf(order, i);
    var t := S.PlaceOf(order, j);
    assert order[..|order|] == order;
    BreaksComplete(p, rungs, shortfall, m, drift);
    ProceedsGrow(p, rungs, order, s + 1, |order|, m);
    if s < t {
      ProceedsGrow(p, rungs, order, s + 1, t, m);
    } else if t < s {
      assert Before(rungs, order[t], order[s]);
    }
  }

  /**
    The draw-down is complete and minimal.  What stays unpaid is exactly what the proceeds of all rungs
    cannot cover, up to the tolerance; if more than the tolerance stays unpaid every rung is empty; and
    no rung is touched before every rung ahead of it in maturity order has been emptied.
   */
  lemma BreaksCompleteAndMinimal(p: Params, rungs: seq<RungState>, shortfall: real, m: int, drift: real)
    requires NonNegative(rungs) && p.tolerance >= 0.0 && shortfall > 0.0
    ensures var b := Breaks(p, rungs, shortfall, m, drift);
            && 0.0 <= b.shortfall && NonNegative(b.rungs)
            && (b.shortfall > p.tolerance <==> shortfall - TotalProceeds(p, rungs, m) > p.tolerance)
            && (b.shortfall > p.tolerance ==> forall i :: 0 <= i < |rungs| ==> b.rungs[i].principal == 0.0)
            && (forall i, j :: 0 <= i < |rungs| && 0 <= j < |rungs| && Before(rungs, i, j) && b.rungs[j] != rungs[j]
                               ==> b.rungs[i].principal == 0.0)
  {
    BreaksComplete(p, rungs, shortfall, m, drift);
    forall i: nat, j: nat | i < |rungs| && j < |rungs|
      ensures var b := Breaks(p, rungs, shortfall, m, drift);
              && b.rungs[i].principal >= 0.0
              && (b.shortfall > p.tolerance ==> b.rungs[i].principal == 0.0)
              && (Before(rungs, i, j) && b.rungs[j] != rungs[j] ==> b.rungs[i].principal == 0.0)
    {
      BreakTouchesInOrder(p, rungs, shortfall, m, drift, i, j);
    }
  }

  // ----- Months and runs -----

  lemma MonthKeepsNonNegative(p: Params, d: Draws, s: State, m: nat)
    requires m < |d.collection| && m < |d.drift| && NonNegative(s.rungs) && p.tolerance >= 0.0
    ensures NonNegative(BeforeCalls(p, d, s, m).rungs) && NonNegative(Month(p, d, s, m).rungs)
  {
    var middle := BeforeCalls(p, d, s, m);
    if HasCalls(d, m) && middle.liquid < Needed(d, m) {
      BreaksCompleteAndMinimal(p, middle.rungs, Needed(d, m) - middle.liquid, m, d.drift[m]);
    }
  }

  lemma OpeningIsNonNegative(strategy: string, p: Params, floor: real, investable: real)
    requires Opening(strategy, p, floor, investable).Ok? && investable >= 0.0
    ensures NonNegative(Opening(strategy, p, floor, investable).value.rungs)
  {
    if strategy == "laddered" && p.fdLadder != [] {
      assert investable / |p.fdLadder| as real >= 0.0;
    }
  }

  lemma {:induction false} RunKeepsNonNegative(p: Params, d: Draws, opening: State, months: nat)
    requires d.Cover(months) && NonNegative(opening.rungs) && p.tolerance >= 0.0
    ensures NonNegative(Run(p, d, opening, months).rungs)
  {
    if months > 0 {
      RunKeepsNonNegative(p, d, opening, months - 1);
      MonthKeepsNonNegative(p, d, Run(p, d, opening, months - 1), months - 1);
    }
  }

  /**
    A month of any run counts as a shortfall if and only if the float and the proceeds of every rung
    together miss the call by more than the tolerance, and then nothing is left.  It counts as met by a break if
    and only if the float alone misses by more than the tolerance and the proceeds make up for it.  What the float
    has above the call stays in it.  A rung is touched only once every rung ahead of it is empty.
   */
  lemma ShortfallMeansExhausted(p: Params, d: Draws, opening: State, m: nat)
    requires d.Cover(m + 1) && NonNegative(opening.rungs) && p.tolerance >= 0.0 && HasCalls(d, m)
    ensures var s := BeforeCalls(p, d, Run(p, d, opening, m), m);
            var after := Run(p, d, opening, m + 1);
            && (IsShort(p, d, s, m) <==> s.liquid + TotalProceeds(p, s.rungs, m) < Needed(d, m) - p.tolerance)
            && (IsShort(p, d, s, m) <==> after.shortfalls == s.shortfalls + 1)
            && (IsShort(p, d, s, m) ==> after.liquid == 0.0 && forall r :: r in after.rungs ==> r.principal == 0.0)
            && (after.metViaBreak == s.metViaBreak + 1 <==>
                Needed(d, m) - s.liquid > p.tolerance && s.liquid + TotalProceeds(p, s.rungs, m) >= Needed(d, m) - p.tolerance)
            && after.liquid == Max(0.0, s.liquid - Needed(d, m))
            && |after.rungs| == |s.rungs|
            && (forall i, j :: 0 <= i < |s.rungs| && 0 <= j < |s.rungs|
                               && Before(s.rungs, i, j) && after.rungs[j] != s.rungs[j]
                               ==> after.rungs[i].principal == 0.0)
  {
    var before := Run(p, d, opening, m);
    RunKeepsNonNegative(p, d, opening, m);
    MonthKeepsNonNegative(p, d, before, m);
    var s := BeforeCalls(p, d, before, m);
    ProceedsNonNegative(p, s.rungs, m, |s.rungs|);
    if s.liquid < Needed(d, m) {
      BreaksCompleteAndMinimal(p, s.rungs, Needed(d, m) - s.liquid, m, d.drift[m]);
      UsedIff(p, s.rungs, Needed(d, m) - s.liquid, m, d.drift[m]);
    }
  }

  /** A rung was broken if and only if there was one, and more than the tolerance to pay. */
  lemma UsedIff(p: Params, rungs: seq<RungState>, shortfall: real, m: int, drift: real)
    ensures Breaks(p, rungs, shortfall, m, drift).used <==> shortfall > p.tolerance && rungs != []
    ensures rungs == [] ==> TotalProceeds(p, rungs, m) == 0.0
  {
    UsedUpTo(p, rungs, MaturityOrder(rungs), |rungs|, shortfall, m, drift);
  }

  lemma {:induction false} UsedUpTo(
      p: Params, rungs: seq<RungState>, order: seq<nat>, k: nat, shortfall: real, m: int, drift: real)
    requires k <= |order| && S.Below(order, |rungs|)
    ensures var b := BreakUpTo(p, rungs, order, k, shortfall, m, drift);
            && (b.used <==> shortfall > p.tolerance && k > 0)
            && (shortfall <= p.tolerance ==> b.shortfall == shortfall)
  {
    if k > 0 {
      UsedUpTo(p, rungs, order, k - 1, shortfall, m, drift);
    }
  }

  // ----- One deposit, in figures -----

  /**
    Breaking a single deposit: it pays its principal and its break interest, as far as the shortfall goes, and
    the rest is reinvested for another tenor at the drifted rate.
   */
  lemma OneDepositBroken(p: Params, r: RungState, shortfall: real, m: int, drift: real)
    requires shortfall > p.tolerance
    ensures var b, proceeds := Breaks(p, [r], shortfall, m, drift), r.principal + BreakInterest(p, r, m);
            && b.interest == BreakInterest(p, r, m) && b.used
            && b.shortfall == (if shortfall > proceeds then shortfall - proceeds else 0.0)
            && b.rungs == [RungState(
                 r.tenorMonths, if r.ratePct + drift > 0.0 then r.ratePct + drift else 0.0,
                 if proceeds > shortfall then proceeds - shortfall else 0.0, m + r.tenorMonths, m)]
  {
    assert MaturityOrder([r]) == [0];
    var start := BreakUpTo(p, [r], [0], 0, shortfall, m, drift);
    assert start == BreakState([r], shortfall, 0.0, false);
    assert BreakUpTo(p, [r], [0], 1, shortfall, m, drift) == BreakOne(p, start, 0, m, drift);
  }

  /**
    The interest of a broken deposit: the contract rate less the penalty, if that leaves anything, for thirty
    days of a year of 365 for every month held.
   */
  lemma BreakInterestInFigures(p: Params, r: RungState, m: int)
    requires r.investedSince <= m
    ensures p.penaltyPctPoints <= r.ratePct ==>
      BreakInterest(p, r, m) * 36500.0
      == r.principal * (r.ratePct - p.penaltyPctPoints) * (30 * (m - r.investedSince)) as real
    ensures p.penaltyPctPoints >= r.ratePct ==> BreakInterest(p, r, m) == 0.0
  {
    var e, days := PenalisedRate(p, r), (HeldMonths(r, m) * 30) as real;
    FractionOfYear(r.principal, e, days);
    if e == 0.0 {
      NoRateNoInterest(r.principal, days);
    }
  }

  lemma FractionOfYear(principal: real, e: real, days: real)
    ensures principal * (e / 100.0) * (days / 365.0) * 36500.0 == principal * e * days
  {
    assert principal * (e / 100.0) * (days / 365.0) == principal * e * days / 36500.0;
  }

  lemma NoRateNoInterest(principal: real, days: real)
    ensures principal * (0.0 / 100.0) * (days / 365.0) == 0.0
  {
  }

  /** 100000 rupees at 7.1 per cent, broken after six months at one point of penalty, meet a shortfall of 103000. */
  lemma SixMonthsBroken(p: Params, drift: real)
    requires p.penaltyPctPoints == 1.0 && 0.0 <= p.tolerance < 1.0
    ensures var r := RungState(9, 7.1, 100000.0, 9, 0);
            && BreakInterest(p, r, 6) * 36500.0 == 109800000.0
            && Breaks(p, [r], 103000.0, 6, drift).shortfall == 0.0
  {
    var r := RungState(9, 7.1, 100000.0, 9, 0);
    BreakInterestInFigures(p, r, 6);
    OneDepositBroken(p, r, 103000.0, 6, drift);
  }

  /** The same for the run of any configured strategy, from a corpus at or above the floor or below it. */
  lemma StrategyShortfallMeansExhausted(strategy: string, p: Params, d: Draws, floor: real, corpus: real, m: nat)
    requires d.Cover(m + 1) && p.tolerance >= 0.0 && HasCalls(d, m)
    requires Opening(strategy, p, floor, Max(0.0, corpus - floor)).Ok?
    ensures var opening := Opening(strategy, p, floor, Max(0.0, corpus - floor)).value;
            var s, after := BeforeCalls(p, d, Run(p, d, opening, m), m), Run(p, d, opening, m + 1);
            && (after.shortfalls == s.shortfalls + 1
                <==> s.liquid + TotalProceeds(p, s.rungs, m) < Needed(d, m) - p.tolerance)
            && (after.shortfalls == s.shortfalls + 1 ==>
                after.liquid == 0.0 && forall r :: r in after.rungs ==> r.principal == 0.0)
  {
    OpeningIsNonNegative(strategy, p, floor, Max(0.0, corpus - floor));
    ShortfallMeansExhausted(p, d, Opening(strategy, p, floor, Max(0.0, corpus - floor)).value, m);
  }

  lemma {:induction false} ProceedsNonNegative(p: Params, rungs: seq<RungState>, m: int, n: nat)
    requires NonNegative(rungs) && n <= |rungs|
    ensures S.SumBelow(n, ProceedsOf(p, rungs, m)) >= 0.0
  {
    if n > 0 {
      ProceedsNonNegative(p, rungs, m, n - 1);
      BreakInterestNonNegative(p, rungs[n - 1], m);
    }
  }

  /** Without deposits there is nothing to break: an all-liquid run is never rescued by a break. */
  lemma {:induction false} AllLiquidNeverBreaks(p: Params, d: Draws, opening: State, months: nat)
    requires d.Cover(months) && opening.rungs == [] && opening.metViaBreak == 0
    ensures Run(p, d, opening, months).rungs == [] && Run(p, d, opening, months).metViaBreak == 0
    ensures Run(p, d, opening, months).interest == opening.interest
  {
    if months > 0 {
      AllLiquidNeverBreaks(p, d, opening, months - 1);
    }
  }
}
