# Housing-society finance: a verified model

A Dafny model of the parts of the repository that move or identify money and records:

- the **treasury engine**: one operating float and a ladder of fixed deposits, month after month, under three
  investment strategies that share the same random draws;
- the **electricity billing arithmetic**: the telescoping-slab tariff, largest-remainder apportionment of a bill over
  flats by area, and the comparison of one bulk HT connection with many LT connections;
- the **idempotent double-entry ledger**, whose balances are derived from its entries;
- **keyset pagination** with opaque cursors, **canonical JSON** as it is hashed and published, and the
  **Monte Carlo stopping loop**.

`dafny verify dfyconfig.toml` covers the whole project.

## How the model is laid out

Code that updates state step by step keeps that form. `TreasuryEngine` has a class `Rung` whose objects are mutated in
place by nested loops; `Apportionment` corrects an array in two loops; `Ledger.Ledger` is a class with the two fields of
the original; `MonteCarlo`, `Tariff` and `CanonicalJson` keep the loops of the original. Each such method is proved
equal to a function on values (`TreasuryModel`, `Tariff.BillFor`, `Apportionment.Shares`, `Ledger.Delivered`,
`CanonicalJson.Canon`), and the theorem modules are about those functions:

| module | about |
|---|---|
| `TreasuryModel`, `TreasuryEngine` | the state of one strategy, one month, a run; the imperative engine |
| `TreasuryConservation`, `TreasuryBreaks`, `TreasurySchedule`, `TreasuryWithoutCalls`, `TreasuryComparison` | theorems about every run, closed forms of runs without calls, and two runs on the same draws |
| `Tariff`, `TariffTheorems`, `TariffBills`, `TariffComparison` | the slab walk, what it charges, bills in figures, bulk against individual connections |
| `Apportionment`, `ApportionmentTheorems`, `ApportionmentOrder`, `ApportionmentTies`, `ApportionmentSums` | largest remainder: sums, quota, optimality, order independence, ties, and what the published map sums to |
| `Ledger` | posting, derived balances, convergence |
| `Json`, `JsonRoundTrip`, `CanonicalJson` | `JSON.stringify` and `JSON.parse` on code units, the canonicaliser |
| `Encodings`, `Cursor`, `Pagination` | UTF-8 and base64url, cursors, page walks |
| `KnownTexts` | what the serialisers write, character by character |
| `MonteCarlo` | the stopping loop and its samples |
| `Numerics`, `RoundedSums`, `StableSort`, `Lexicographic`, `Wrappers` | shared arithmetic, Python's `sorted` as a stable sort, string order |

Money in rupees is an exact `real`, money in paise an `int`. Python's `int()` truncation, its `round()` to even and
the half-away-from-zero `to_paise` are explicit functions. Random numbers, clocks and the SQL behind a page are
parameters. Strings that are serialised are sequences of 16-bit code units.

## Where the code differs from what is said of it

Every condition given as *if and only if* is proved for all inputs that the code accepts.

- `to_paise` is documented as rounding half up. It does if and only if the amount is not a negative exact half of a
  paisa, which it rounds away from zero (`TariffTheorems.HalfUpExceptOnNegativeHalves`, `NegativeHalfRoundsDown`).
- `apportion_by_area` is documented as flooring each ideal share. It truncates toward zero, which floors if and only if
  the ideal is not negative or is whole (`ApportionmentTheorems.TruncationIsFlooringIff`, `NegativeIdealsAreNotFloored`).
  That is why a negative amount needs the second correction loop: ideals that are not negative only ever raise shares,
  ideals that are not positive only ever lower them (`OnlyRaising`, `OnlyLowering`).
- Its shares are documented to sum to the amount for every input. Without flats they do if and only if the amount is
  zero; for one flat always; for more flats if and only if three losses cancel: the whole paise of weights beyond the
  last flat, a leftover too large for one pass, and the shares that a repeated flat id overwrites
  (`ApportionmentSums.MapSumsToAmountIff`). With at least two flats and weights that are not negative (ones, if
  they have no positive sum) a caller can tell beforehand: every amount is shared out in full if and only if each entry that a repeated id overwrites, and each one beyond the last
  flat, weighs nothing (`SumsToEveryAmountIff`). `NoFlatsLoseTheAmount`, `RepeatedFlatLosesAShare` and
  `ExcessWeightTakesItsShare` are inputs where the sum is missed; with distinct ids and as many weights it is missed
  only without flats (`MapSumsToAmount`).
- `recoverable_saving_paise` is assigned twice. Only the second assignment counts: the whole saving, and on top the
  lesser of the capped and the wanted overhead (`TariffComparison.RecoverableIsSavingPlusOverhead`).
- A `laddered` strategy with an empty ladder loses the investable part of the corpus. Conservation over a run holds if
  and only if that case is excluded (`TreasuryConservation.WholeRunConservation`). `single_maturity` raises on an empty
  ladder, and unknown strategies raise.
- A tenor below one month makes a rung miss its maturity forever. A strategy keeps its schedule if and only if the
  tenors it invests in are at least a month: for `all_liquid` always, for `single_maturity` if some tranche has such a
  tenor, for `laddered` if all have (`TreasurySchedule.StrategyKeepsScheduleIffTenorsPositive`, `TenorsPositiveMeans`).
- A premature break can beat holding. It earns no more than the contract rate if and only if the rung is empty, was
  reinvested in the same month, or thirty days at the penalised rate are at most a twelfth of a year at the contract rate
  (`TreasurySchedule.BreakInterestBelowContractIff`); for a penalty that is not negative the
  last holds if and only if the contract rate is not negative (`PenaltyKeepsPace`). `NegativePenaltyBeatsContract` is an input with a negative penalty.
- `shortfall_count` is documented as the number of unmet cash calls, and is reported as a share of the configured calls.
  The code counts months: never more than the calls of short months, and as many if and only if no two calls share a
  short month (`TreasuryConservation.ShortfallsCountCallsIff`, `TwoCallsCountOnce`).
- The `1e-9` below which a call counts as met is the parameter `tolerance`. Without interest the strategies agree
  exactly at tolerance zero, and otherwise to within one tolerance for every call month. The bound is reached for every
  number of call months (`TreasuryComparison.ToleranceSeparates`).
- An own member named `__proto__`, which parsed JSON can have, vanishes from the canonical text. The text decides
  equality of everything else (`CanonicalJson.CanonicalTextDecidesEquality`, `ProtoMemberIsLost`).
- `stableStringify` is documented to emit keys alphabetically at every level. JavaScript enumerates array-index keys
  first and in numeric order, so it does if and only if that order agrees with the alphabet in every object
  (`CanonicalJson.AlphabeticalIffOrdersAgree`; keys `9` and `10` come out in that order, `NumericKeysAreNotAlphabetical`).
- A cursor with an empty id is encoded but refused on the way back. A page limit of zero would end a walk at once with
  nothing; `parsePageLimit` never returns it with its default bounds.
- An idempotency key that is reused for a different entry makes the first delivery win. Replicas that receive the same
  entries converge if and only if entries sharing a key have the same effect on every account
  (`Ledger.ConvergesIffKeysFixEffects`), that is, unless they move different amounts (`SameEffectIffSameMovement`);
  `ReusedKeyDiverges` is an instance.

## Model

| member | source | states |
|---|---|---|
| TreasuryEngine.Rung.constructor | simulation/sim/engine/treasury.py:45-51 | a new rung is invested in month 0 and matures after its tenor |
| TreasuryEngine.Rung.Reinvest | simulation/sim/engine/treasury.py:175-179 | the whole new state of a rung rolled over in month m at the drifted rate, floored at zero |
| TreasuryModel.LongestTranche | simulation/sim/engine/treasury.py:96 | the first of the tranches with the longest tenor |
| TreasuryEngine.MakeRungs | simulation/sim/engine/treasury.py:92-105 | distinct fresh rungs with exactly the strategy's opening positions, or the error the source raises |
| TreasuryEngine.ApplyFlows | simulation/sim/engine/treasury.py:128-133 | dues in, opex out, savings interest on a positive float only |
| TreasuryEngine.MatureRungs | simulation/sim/engine/treasury.py:135-146 | every rung due in the month, and no other, is rolled over in place; the float and the interest grow by exactly the contract interest of those |
| TreasuryEngine.BreakRungs | simulation/sim/engine/treasury.py:157-179 | the loop with its early exit leaves the rungs, shortfall and interest of the full greedy draw-down in maturity order |
| TreasuryEngine.SettledStays | simulation/sim/engine/treasury.py:161-163 | once the shortfall is settled, going through the remaining rungs would change nothing |
| TreasuryEngine.PayCalls | simulation/sim/engine/treasury.py:148-185 | a month without calls changes nothing; a call is paid from the float, or by breaking, and counted as met by a break or as a shortfall |
| TreasuryEngine.RunOneStrategy | simulation/sim/engine/treasury.py:108-196 | the imperative engine reports exactly the closing state of the modelled run, or the opening error |
| TreasuryEngine.DrawCommonInputs | simulation/sim/engine/treasury.py:71-89 | the shared draws: calls grouped by their jittered, clamped month, in configuration order |
| TreasuryEngine.RunStrategies | simulation/sim/engine/treasury.py:213-218 | the loop over the configured strategies fills the result of each, all from the same position and draws |
| TreasuryEngine.SimulateTreasury | simulation/sim/engine/treasury.py:199-222 | every configured strategy, each run on the same draws, and the structural surplus; or the first failing strategy's error and no earlier failure |
| TreasuryWithoutCalls.RunWithoutCalls | simulation/sim/engine/treasury.py:127-146 | without calls, the whole position after any number of months: the float grown month by month by dues, opex, a twelfth of the savings rate and maturing interest; every rung in the cycle its tenor puts it in |
| TreasuryWithoutCalls.AllLiquidWithoutCalls | simulation/sim/engine/treasury.py:93-133 | all-liquid: the corpus grown by operations alone, no rungs and no deposit interest |
| TreasuryWithoutCalls.SingleMaturityWithoutCalls | simulation/sim/engine/treasury.py:95-146 | the interest is that of every completed cycle, principal times rate times tenor over 1200, the rate drifted at each renewal and floored at zero |
| TreasuryWithoutCalls.LadderedWithoutCalls | simulation/sim/engine/treasury.py:98-146 | the same for a ladder, each tranche on an equal part of the investable corpus |
| TreasuryWithoutCalls.AllLiquidReport | simulation/sim/engine/treasury.py:187-218 | what a simulation without calls reports for all-liquid, from the configured dues, corpus and floor |
| TreasuryWithoutCalls.SingleMaturityReport | simulation/sim/engine/treasury.py:187-218 | the same for a single maturity, interest and closing float |
| TreasuryWithoutCalls.OneCycleOfThreeMonths | simulation/sim/engine/treasury.py:138 | 120000 at 6.5 per cent for three months has paid 1950 before the end of month four |
| TreasuryConservation.StructuralSurplusIsMeanFlow | simulation/sim/engine/treasury.py:220 | the reported surplus times the number of collection rates is what collections less opex bring in over those months |
| TreasuryConservation.BreaksConserve | simulation/sim/engine/treasury.py:161-179 | a break turns principal and break interest into payment, losing nothing |
| TreasuryConservation.MonthConserves | simulation/sim/engine/treasury.py:127-185 | one month changes float plus principals by net flows and deposit interest only |
| TreasuryConservation.RunConserves | simulation/sim/engine/treasury.py:127-185 | the same over any number of months |
| TreasuryConservation.OpeningWealth | simulation/sim/engine/treasury.py:92-120 | every strategy opens with the whole corpus, except the empty ladder |
| TreasuryConservation.WholeRunConservation | simulation/sim/engine/treasury.py:119-185 | closing float plus principals equals max(corpus, floor) plus collections, savings interest and deposit interest, less opex and calls, plus what calls left unmet, if and only if the ladder strategy is not run on an empty ladder with something to invest |
| TreasuryConservation.EveryCallFallsDue | simulation/sim/engine/treasury.py:79-87 | whatever the jitter, the amounts demanded within the horizon are exactly the configured ones, each as often as it is configured |
| TreasuryConservation.CallFallsInNearestMonth | simulation/sim/engine/treasury.py:82-83 | a call falls due in the month of the horizon nearest to its jittered month |
| TreasuryConservation.MonthsDemandTheirCalls | simulation/sim/engine/treasury.py:79-87 | every month demands, in configuration order, exactly the calls it is nearest to, each its multiple of the dues times its drawn size |
| TreasuryConservation.CountsAreMonths | simulation/sim/engine/treasury.py:148-185 | the two counters are the sizes of two disjoint sets of months with calls: those short, and those met only by a break |
| TreasuryConservation.CountsBounded | simulation/sim/engine/treasury.py:181-185 | together they never exceed the number of months with calls |
| TreasuryConservation.ShortfallsCountCallsIff | simulation/sim/engine/treasury.py:58-60 | the shortfall count never exceeds the calls of short months, and equals them if and only if no two calls share a short month |
| TreasuryConservation.TwoCallsCountOnce | simulation/sim/engine/treasury.py:184-185 | two unmet calls in one month count as one shortfall |
| TreasuryConservation.ShortfallRateIsAPercentage | simulation/sim/engine/treasury.py:187-196 | both counts together never exceed the configured calls, so the reported rate lies between 0 and 100; any_shortfall is 1 exactly when the rate is positive |
| TreasuryConservation.ShortfallRateIsPerHundredCalls | simulation/sim/engine/treasury.py:187-193 | the rate times the configured calls, at least one, is a hundred times the count |
| TreasuryConservation.ReportIsOfTheRun | simulation/sim/engine/treasury.py:188-196 | the reported float and interest are those of a conserved run, the counts its short months and its months met only by a break |
| TreasuryBreaks.MaturityOrderCorrect | simulation/sim/engine/treasury.py:161 | the break order lists every rung once, by maturity month, ties in ladder order |
| TreasuryBreaks.BreaksDrawDown | simulation/sim/engine/treasury.py:157-179 | the broken rungs are a prefix of the maturity order, each keeping only what the proceeds up to it exceed the shortfall by |
| TreasuryBreaks.BreaksComplete | simulation/sim/engine/treasury.py:157-185 | what stays unpaid beyond the tolerance is exactly what all proceeds together cannot cover |
| TreasuryBreaks.BreaksCompleteAndMinimal | simulation/sim/engine/treasury.py:157-185 | in addition, no rung is touched before every rung ahead of it is empty, and unpaid means every rung is empty |
| TreasuryBreaks.BreakInterestInFigures | simulation/sim/engine/treasury.py:164-166 | break interest is principal times (rate less penalty) times 30 days a month held over 36500, and nothing if the penalty takes the whole rate |
| TreasuryBreaks.OneDepositBroken | simulation/sim/engine/treasury.py:161-179 | one broken deposit: what it pays, what stays unpaid, and the rest reinvested for its tenor at the drifted rate |
| TreasuryBreaks.SixMonthsBroken | simulation/sim/engine/treasury.py:164-171 | 100000 at 7.1 per cent, broken after six months at one point of penalty, meets a shortfall of 103000 |
| TreasuryBreaks.ShortfallMeansExhausted | simulation/sim/engine/treasury.py:148-185 | in any month of any run: a shortfall is counted if and only if float and all proceeds miss the call, and then nothing is left; a break is counted if and only if only the proceeds made up for it; the float keeps what it has above the call |
| TreasuryBreaks.StrategyShortfallMeansExhausted | simulation/sim/engine/treasury.py:119-185 | the same for every configured strategy, floor and corpus |
| TreasuryBreaks.RunKeepsNonNegative | simulation/sim/engine/treasury.py:127-185 | no deposit ever goes negative |
| TreasuryBreaks.AllLiquidNeverBreaks | simulation/sim/engine/treasury.py:93-94 | an all-liquid run has no rungs, no deposit interest and no rescue by a break |
| TreasurySchedule.ScheduleHoldsIffTenorsPositive | simulation/sim/engine/treasury.py:135-146 | after the maturities of every month m each rung is due at its investment month plus its tenor and m < due <= m + tenor, if and only if every opening rung has a tenor of at least 1 |
| TreasurySchedule.StrategyKeepsScheduleIffTenorsPositive | simulation/sim/engine/treasury.py:92-146 | the same for every strategy, by the tenors of the tranches it invests in |
| TreasurySchedule.TenorsPositiveMeans | simulation/sim/engine/treasury.py:93-104 | which tenors those are, for each strategy |
| TreasurySchedule.BreakInterestBelowContractIff | simulation/sim/engine/treasury.py:164-166 | for any penalty, breaking earns no more than the contract rate if and only if nothing is at stake or the penalised rate for thirty days is at most a twelfth of the contract rate |
| TreasurySchedule.PenaltyKeepsPace | simulation/sim/engine/treasury.py:165 | with a penalty that is not negative, if and only if the contract rate is not negative |
| TreasurySchedule.NegativePenaltyBeatsContract | simulation/sim/engine/treasury.py:165 | with a negative penalty a break can earn more |
| TreasurySchedule.BreakingNeverBeatsHolding | simulation/sim/engine/treasury.py:92-179 | for every strategy with such tenors and rates, in every month a rung that could be broken is inside its tenor and breaking it earns no more than its contract rate for the months held |
| TreasuryComparison.CallLeavesWealth | simulation/sim/engine/treasury.py:148-185 | without interest, what remains after a call is its excess over the wealth, up to the tolerance, however that wealth is split over float and rungs |
| TreasuryComparison.StrategiesAgreeWithoutRates | simulation/sim/engine/treasury.py:92-196 | with no rates, any two strategies on the same draws stay within one tolerance per call month of each other's wealth |
| TreasuryComparison.StrategiesCoincideWithoutTolerance | simulation/sim/engine/treasury.py:92-196 | with no rates and no tolerance, any two strategies have the same wealth after every month and the same shortfall months |
| TreasuryComparison.ToleranceSeparates | simulation/sim/engine/treasury.py:162 | for every positive tolerance and every number n of call months there are runs in which two strategies end exactly n tolerances apart |
| TreasuryComparison.MoreCorpusNeverHurtsAllLiquid | simulation/sim/engine/treasury.py:120-185 | all-liquid: a larger corpus and pointwise larger collections never add a shortfall nor lower the closing float |
| TariffTheorems.ToPaiseIsNearest | simulation/sim/engine/electricity.py:26-29 | the nearest paisa, halves away from zero, the same for both signs |
| TariffTheorems.HalfUpExceptOnNegativeHalves | simulation/sim/engine/electricity.py:27-29 | equal to rounding half up if and only if the amount is not a negative exact half, else one paisa lower |
| Numerics.RoundHalfEvenIsNearest | simulation/sim/engine/electricity.py:229-230 | the nearest integer, halves to the even one |
| Tariff.SlabCharges | simulation/sim/engine/electricity.py:66-88 | the loop with its early break builds the breakdown of the recursive walk and its paise total |
| Tariff.ComputeTariff | simulation/sim/engine/electricity.py:56-107 | the complete bill: energy, fixed, demand, duty and cess, and their total |
| TariffBills.LinesAreOfSlabs | simulation/sim/engine/electricity.py:73-84 | every line of the breakdown charges a part of one slab's band at that slab's rate, to the nearest paisa |
| TariffBills.BillInFigures | simulation/sim/engine/electricity.py:90-107 | fixed, demand, duty and cess within the rounding of the tariff's own figures, and the total their sum with the energy charge |
| TariffBills.TotalInFigures | simulation/sim/engine/electricity.py:66-107 | the total within an explicit rounding bound of energy with its duty, connection and load charges, demand and cess |
| TariffBills.IdleLtConnection | simulation/sim/engine/electricity.py:90-97 | 120 rupees a connection and 25 of cess make 14500 paise |
| TariffTheorems.EarlyBreakIsSafe | simulation/sim/engine/electricity.py:86-88 | stopping at the slab that holds the consumption drops no charge |
| TariffTheorems.BilledUnitsAreConsumption | simulation/sim/engine/electricity.py:66-88 | billed bands tile the consumption from the first unit on, their units sum to it, and nothing is billed exactly when it is at or below zero |
| TariffTheorems.IdleConnectionPaysItsFixedCharges | simulation/sim/engine/electricity.py:56-64 | at or below zero consumption the bill is the charge of the connection, of the sanctioned load and of the demand, and the cess, each rounded |
| TariffTheorems.EnergyIsPerUnitPricing | simulation/sim/engine/electricity.py:66-88 | for whole units and whole-paise rates the energy charge is the sum over units of the rate of the band each falls in |
| TariffTheorems.EnergySuperadditive | simulation/sim/engine/electricity.py:66-88 | with non-decreasing rates two loads never cost less on one connection than on two, before rounding |
| TariffTheorems.SplittingNeverCostsMore | simulation/sim/engine/electricity.py:203 | the same over any number of connections |
| TariffTheorems.SplittingInPaise | simulation/sim/engine/electricity.py:75 | the same in billed paise, up to half a paisa per slab and bill |
| TariffComparison.SidesOfComparison | simulation/sim/engine/electricity.py:198-205 | both sides bill flats and common area by one function of the load; only the HT side pays for demand on top |
| TariffComparison.BulkSavesOnlyConnectionCharges | simulation/sim/engine/electricity.py:198-207 | under one tariff with non-decreasing rates and any demand charge, bulk saves at most the fixed charges and cess of the connections it replaces, up to rounding |
| TariffComparison.SavingHasTwoSources | simulation/sim/engine/electricity.py:198-207 | for any LT and HT tariff the reported saving is at most the LT fixed charges and cess of the connections given up, up to rounding, plus what the bulk load costs less under the HT than under the LT tariff |
| TariffComparison.OverheadIsRoundedOnce | simulation/sim/engine/electricity.py:210-218 | the lesser of the two rounded overheads is the rounded lesser one |
| TariffComparison.RecoverableIsSavingPlusOverhead | simulation/sim/engine/electricity.py:207-218 | the recoverable amount exceeds the saving by exactly the lesser of capped and wanted overhead, rounded, and so never falls below it |
| TariffComparison.SavingPctIsShareOfLt | simulation/sim/engine/electricity.py:208 | the percentage is the saving's share of the LT total |
| TariffBills.ComparisonInFigures | simulation/sim/engine/electricity.py:198-226 | the reported totals are the HT bill of the whole load, at 45 kVA or load / 720 * 1.15, and the sum of the separate LT bills; saving, percentage and recoverable amount follow from them |
| Apportionment.Raise | simulation/sim/engine/electricity.py:144-149 | the first loop adds one paisa to each claim ranked below the leftover, in place |
| Apportionment.Lower | simulation/sim/engine/electricity.py:150-155 | the second loop takes one paisa from each of the last-ranked claims, in place |
| Apportionment.LargestRemainder | simulation/sim/engine/electricity.py:131-155 | truncation and the loop for the leftover's sign compute the share of every claim by its rank |
| Apportionment.ApportionByArea | simulation/sim/engine/electricity.py:116-157 | the published map, with the cases of no flat, one flat, no positive total weight and more weights than flats, and the index error when there are too few |
| Apportionment.RankIsPlace | simulation/sim/engine/electricity.py:141 | a claim stands in the order at the number of claims with a larger remainder, ties by flat id and then position |
| ApportionmentTies.ComesBeforeIsLess | simulation/sim/engine/electricity.py:141 | the order of flat ids: the first character that differs, a proper prefix first |
| ApportionmentTies.EqualRemaindersGoToSmallerId | simulation/sim/engine/electricity.py:141-155 | over equal base and remainder, the smaller id never gets less and at most a paisa more |
| ApportionmentTies.EqualFlatsInMap | simulation/sim/engine/electricity.py:116-157 | the same in the published map for flats of equal weight and amounts of either sign |
| ApportionmentTies.OddPaisaGoesFirst | simulation/sim/engine/electricity.py:116-157 | of an odd amount over two equal flats the first id gets the odd paisa |
| ApportionmentTies.OnePaisaOverTwoFlats | simulation/sim/engine/electricity.py:116-157 | one paisa over flats a and b of equal weight goes to a |
| ApportionmentTies.QuotaInMap | simulation/sim/engine/electricity.py:125-157 | every entry of the published map is strictly within a paisa of amount times weight over the sum of weights, or of an equal part if that sum is not positive |
| ApportionmentTheorems.TruncationIsFlooringIff | simulation/sim/engine/electricity.py:118-131 | a base share is the floor of its ideal if and only if the ideal is not negative or is whole, else one more |
| ApportionmentTheorems.OnlyRaising | simulation/sim/engine/electricity.py:144-149 | with non-negative ideals there is no surplus: only the first loop runs |
| ApportionmentTheorems.OnlyLowering | simulation/sim/engine/electricity.py:150-155 | with non-positive ideals there is nothing left to hand out: only the second loop runs |
| ApportionmentTheorems.SharesSumIff | simulation/sim/engine/electricity.py:135-155 | for any computed ideals, one pass of the loops makes the shares sum to the amount if and only if the leftover is at most the number of flats in size |
| ApportionmentTheorems.PerturbedSharesStillSum | simulation/sim/engine/electricity.py:135-157 | the shares sum exactly to an amount of either sign even if the ideals are perturbed, as long as they sum to within one paisa of it |
| ApportionmentTheorems.ExactIdealsSum | simulation/sim/engine/electricity.py:125-130 | exact ideals sum to the amount, also when the weights are replaced by ones |
| ApportionmentTheorems.QuotaHolds | simulation/sim/engine/electricity.py:130-155 | every share is strictly within one paisa of its ideal |
| ApportionmentTheorems.LargerIdealLargerShare | simulation/sim/engine/electricity.py:130-155 | a larger ideal never gets a smaller share; equal ideals differ by at most a paisa |
| ApportionmentTheorems.LargerWeightLargerShare | simulation/sim/engine/electricity.py:116-157 | of two flats the larger never pays less of a bill nor receives less of a refund |
| ApportionmentTheorems.SharesAreOptimal | simulation/sim/engine/electricity.py:116-157 | no other integer allocation of the amount deviates less in total from ideals of one sign |
| ApportionmentTheorems.AreaSharesAreExactAndBest | simulation/sim/engine/electricity.py:116-157 | for non-negative areas and an amount of either sign: exact sum, quota and optimality together |
| ApportionmentOrder.OrderDoesNotMatter | simulation/sim/engine/electricity.py:141 | listing the same flats, with distinct ids, in another order gives the same map |
| ApportionmentSums.SharesSum | simulation/sim/engine/electricity.py:135-155 | for any computed ideals the shares sum to the amount less what one pass of the loops cannot absorb |
| ApportionmentSums.PublishedSum | simulation/sim/engine/electricity.py:116-157 | the published map sums to the amount less what goes to no flat and the shares that repeated ids overwrite |
| ApportionmentSums.MapSumsToAmountIff | simulation/sim/engine/electricity.py:116-157 | for every accepted input, when that is the amount: without flats, for one flat, and for more |
| ApportionmentSums.SumsToEveryAmountIff | simulation/sim/engine/electricity.py:116-157 | for weights that are not negative, the map sums to every amount if and only if each entry overwritten by a repeated id and each weight beyond the last flat is zero |
| ApportionmentSums.MapSumsToAmount | simulation/sim/engine/electricity.py:116-157 | for distinct ids with a weight each, if and only if there is a flat or nothing to share; the keys are exactly the ids |
| ApportionmentSums.NoFlatsLoseTheAmount | simulation/sim/engine/electricity.py:126-128 | without flats an amount of 1000 is shared out to nobody |
| ApportionmentSums.RepeatedFlatLosesAShare | simulation/sim/engine/electricity.py:157 | two paise over one flat listed twice leave a map that sums to one |
| ApportionmentSums.ExcessWeightTakesItsShare | simulation/sim/engine/electricity.py:125-157 | of ten paise over weights 1, 1 and 8 for two flats, the map holds two |
| Ledger.Ledger.constructor | simulation/sim/engine/ledger.py:30-32 | an empty valid ledger |
| Ledger.Ledger.Post | simulation/sim/engine/ledger.py:34-43 | appends the entry and answers true exactly when its key is new, else changes nothing; seen keys stay the keys of the entries, all distinct |
| Ledger.Ledger.GetBalance | simulation/sim/engine/ledger.py:49-61 | the balance is derived from the entries, a self-transfer cancelling |
| Ledger.PostingMovesAmount | simulation/sim/engine/ledger.py:34-61 | a new entry raises the debit account and lowers the credit account by its amount and touches no other; a known key changes nothing |
| Ledger.Ledger.IsBalanced | simulation/sim/engine/ledger.py:63-71 | the sum over all touched accounts is zero for every ledger |
| Ledger.BalancesCancel | simulation/sim/engine/ledger.py:63-71 | over any distinct accounts that include every touched one, the balances sum to zero |
| Ledger.DeliveredKeepsFirst | simulation/sim/engine/ledger.py:34-43 | the log holds exactly the first delivery of every key |
| Ledger.ConvergesIffKeysFixEffects | simulation/sim/engine/ledger.py:34-61 | all deliveries of the same entries, with any duplication and order, give equal balances for every account, if and only if entries sharing a key have the same effect on every account |
| Ledger.SameEffectIffSameMovement | simulation/sim/engine/ledger.py:55-60 | two entries have the same effect on every account if and only if they are equal up to the memo, each written as the other's negative, or both move nothing |
| Ledger.ReplicasConverge | simulation/sim/engine/ledger.py:34-61 | in particular with one entry per key |
| Ledger.ReusedKeyDiverges | simulation/sim/engine/ledger.py:39-40 | two entries under one key, delivered in either order, leave different balances |
| Ledger.ReplayChangesNothing | simulation/sim/engine/ledger.py:24-28 | replaying entries whose keys are known, such as the whole log, changes nothing |
| Ledger.ReachableLedgersBalance | simulation/sim/engine/ledger.py:24-71 | every reachable ledger has distinct keys and balances that cancel |
| MonteCarlo.RunUntilStable | simulation/sim/analysis/monte_carlo.py:81-101 | stops at the first checked, stable iteration count, else at the cap, with exactly the samples of that many iterations; divides by zero exactly when a check is reached with interval 0 |
| MonteCarlo.EndsAtFirstStableCheck | simulation/sim/analysis/monte_carlo.py:88-99 | where a run ends: the cap, or the first stable count that is at least the minimum and a multiple of the interval |
| MonteCarlo.SamplesAreHistories | simulation/sim/analysis/monte_carlo.py:91-92 | every metric lists exactly its values, iteration by iteration |
| MonteCarlo.LargerCapOnlyExtends | simulation/sim/analysis/monte_carlo.py:22-25 | a larger cap only appends to the samples, and leaves a run that stopped on stability unchanged |
| JsonRoundTrip.ParseStringify | backend/src/common/pagination/cursor.util.ts:27-42 | what `JSON.stringify` writes, compact or indented, `JSON.parse` reads back as the same value (sections 2 to 7 of RFC 8259) |
| KnownTexts.ShortEscapesAre | backend/src/common/pagination/cursor.util.ts:27 | the seven characters that a string literal escapes by a letter (section 7 of RFC 8259) |
| KnownTexts.LongEscapesAre | backend/src/common/pagination/cursor.util.ts:27 | other controls and lone surrogates are escaped by four lower-case hexadecimal digits |
| KnownTexts.OthersAreNotEscaped | backend/src/common/pagination/cursor.util.ts:27 | every other character stands for itself |
| KnownTexts.ProtoIs | backend/src/common/util/canonical-json.ts:17 | the key whose assignment sets the prototype |
| CanonicalJson.SortKeysDeep | backend/src/common/util/canonical-json.ts:10-22 | the recursive rebuild, key by key, computes the canonical value |
| CanonicalJson.CanonicalJsonStringify | backend/src/common/util/canonical-json.ts:6-8 | the compact text of the canonical value |
| CanonicalJson.StableStringify | backend/src/openapi/document.ts:83-100 | the indented text of the canonical value and a line feed |
| KnownTexts.CompactArrayText | backend/src/common/util/canonical-json.ts:6-8 | an array of one is written without white space |
| KnownTexts.PublishedArrayText | backend/src/openapi/document.ts:83-85 | an array of one is written on lines of its own, two spaces in, with a last line feed |
| KnownTexts.LineBreaks | backend/src/openapi/document.ts:84 | a line break is one line feed and the indentation times the depth in spaces, or nothing |
| CanonicalJson.CanonMembers | backend/src/common/util/canonical-json.ts:14-19 | a rebuilt object has exactly the members of the original but `__proto__`, with canonical values |
| CanonicalJson.CanonicalTextDecidesEquality | backend/src/common/util/canonical-json.ts:1-22 | two texts are equal if and only if the values are equal up to key order at every depth, for both canonicalisers |
| CanonicalJson.CanonicalTextParses | backend/src/openapi/document.ts:83-85 | reading either text back gives the rebuilt value |
| CanonicalJson.AlphabeticalIffOrdersAgree | backend/src/openapi/document.ts:69-100 | the keys come out in code-unit order at every depth if and only if JavaScript's enumeration order agrees with it in every object |
| CanonicalJson.NumericKeysAreNotAlphabetical | backend/src/openapi/document.ts:94-96 | an object with the keys `9` and `10` enumerates `9` first |
| CanonicalJson.CanonIsIdempotent | backend/src/common/util/canonical-json.ts:10-22 | rebuilding a rebuilt value changes nothing |
| CanonicalJson.ProtoMemberIsLost | backend/src/common/util/canonical-json.ts:15-17 | an own `__proto__` member leaves no trace in the text |
| Encodings.Base64UrlRoundTrip | backend/src/common/pagination/cursor.util.ts:27-42 | unpadded base64url decodes to the bytes it was made from (section 5 of RFC 4648) |
| Encodings.Utf8RoundTrip | backend/src/common/pagination/cursor.util.ts:27-42 | UTF-8 decodes to the well-formed text it was made from |
| KnownTexts.Base64UrlVectors | backend/src/common/pagination/cursor.util.ts:27 | vectors of section 10 of RFC 4648 without padding, and the two letters of the URL-safe alphabet |
| KnownTexts.Utf8Vectors | backend/src/common/pagination/cursor.util.ts:27 | one character of each encoded length |
| Cursor.StringifyIsWellFormed | backend/src/common/pagination/cursor.util.ts:27 | `JSON.stringify` escapes every lone surrogate, so its text survives UTF-8 |
| Cursor.CursorRoundTrip | backend/src/common/pagination/cursor.util.ts:26-50 | a cursor decodes to itself if its id is non-empty and is refused otherwise |
| Cursor.CursorsAreDistinct | backend/src/common/pagination/cursor.util.ts:25-28 | different sort positions with a non-empty id have different cursors |
| Cursor.CursorIsUrlSafe | backend/src/common/pagination/cursor.util.ts:25-28 | a cursor consists of letters, digits, `-` and `_` |
| KnownTexts.CursorTextIs | backend/src/common/pagination/cursor.util.ts:26-28 | the JSON inside a cursor: the members sortValue and id in this order, and nothing else |
| Cursor.AcceptedCursorIsInText | backend/src/common/pagination/cursor.util.ts:30-50 | an accepted cursor's id, non-empty, and sort value, a string or null, are members of the object in the text |
| Cursor.DecodedHasId | backend/src/common/pagination/cursor.util.ts:30-49 | whatever a client sends, an accepted cursor has an id |
| Pagination.AcceptedLimitsArePositive | backend/src/common/pagination/cursor.util.ts:53-60 | a limit is accepted exactly when it is missing or a positive integer, and lies between 1 and the maximum |
| Pagination.LimitsAreKeptUpToAHundred | backend/src/common/pagination/cursor.util.ts:53-60 | missing means 20, 1 to 100 is kept, more is 100, anything else is refused |
| KnownTexts.PageOrderIs | backend/src/common/pagination/cursor.util.ts:9-16 | later sort values first, then rows without one, larger ids first among equals |
| Pagination.FetchedPage | backend/src/common/pagination/cursor.util.ts:62-73 | from limit + 1 fetched rows the page is the first rows past the cursor, with a next cursor exactly when rows are left over |
| Pagination.WalkFollowsKeys | backend/src/common/pagination/cursor.util.ts:39-73 | no cursor of a walk is refused: each stands for the key of the last row returned |
| Pagination.WalkReturnsTheTable | backend/src/common/pagination/cursor.util.ts:9-16 | walking an unchanging table ends within size over limit requests and returns every row exactly once, in order |
| Pagination.NoRowRepeats | backend/src/common/pagination/cursor.util.ts:9-16 | whatever is inserted or deleted between requests, no row key is returned twice |
| Pagination.NoLastingRowIsMissed | backend/src/common/pagination/cursor.util.ts:9-16 | a completed walk returned a row for every key that was there throughout, even if the rest of the row was edited |
| Pagination.ReturnedRowsWereThere | backend/src/common/pagination/cursor.util.ts:9-16 | a walk returns only rows that were in the table at one of its requests |
| Pagination.ZeroLimitReturnsNothing | backend/src/common/pagination/cursor.util.ts:69-71 | with limit 0 a walk ends at once with nothing |

## Left out

- Random number generation and its distributions: the draws of an iteration are arbitrary inputs, long enough for the
  horizon; the sampler is a function of the iteration's index.
- Floating-point rounding: money is exact, except that apportionment is also proved for perturbed ideal shares.
- Percentiles and confidence intervals: stability is any predicate on the samples.
- `derive_common_consumption` and `from_paise`: single expressions.
- `Date` values, `undefined`, functions and `toJSON` in the canonicaliser; a number is represented by its JSON text.
- Number-like strings as `limit`: `Number()` itself is represented by its outcome.
- Fields of a decoded cursor object beyond the two that are read.
- Node's `Buffer` and the JSON built-ins are modelled from their specifications; their source is not part of this model.
- SQL execution: a page's rows are those strictly after the cursor in the sort order; collation is by code units.
- `sorted` and `Array.prototype.sort` are modelled as a stable insertion sort; only their result matters.
- Access control, collections, requests, water, approval and etag helpers: short branches and sums, easy members only.
- User interfaces, sockets, NestJS wiring, Prisma, configuration and report writing.
