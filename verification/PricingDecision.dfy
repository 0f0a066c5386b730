/** Deciding what a pricing pass does with one activity
    (packages/core/src/pricing/pricing-decision.ts). */
module PricingDecision {
  import opened Wrappers
  import opened Backoff

  datatype LegPricing =
    | Absent
    | Priced(usd: string)
    | Unpriceable(notBeforeMs: Option<int>)
    | Unmappable

  datatype PricingOutcome =
    | PricedAt(usdIn: Option<string>, usdOut: Option<string>)
    | Reschedule(delayMs: int)
    | NothingToPrice
    | NoSettlementTime
    | UnmappableToken
    | AttemptsExhausted

  datatype RetryBudget = RetryBudget(attempts: nat, maxAttempts: int, schedule: seq<string>, nowMs: int)

  function UsdOf(leg: LegPricing): Option<string> {
    if leg.Priced? then Some(leg.usd) else None
  }

  predicate IsDefinitiveMiss(leg: LegPricing) {
    leg.Unpriceable? && leg.notBeforeMs.Some?
  }

  predicate PricedSiblingSettlesEveryMiss(legs: seq<LegPricing>) {
    && (exists i | 0 <= i < |legs| :: legs[i].Priced?)
    && (forall i | 0 <= i < |legs| :: !legs[i].Unpriceable? || IsDefinitiveMiss(legs[i]))
  }

  /** The later of two moments, either of which may be unset. */
  function Later(a: Option<int>, b: Option<int>): Option<int> {
    if a.None? then b else if b.None? || b.value <= a.value then a else b
  }

  function NotBeforeOf(leg: LegPricing): Option<int> {
    if leg.Unpriceable? then leg.notBeforeMs else None
  }

  function LatestOf(legs: seq<LegPricing>): Option<int> {
    if legs == [] then None else Later(LatestOf(legs[..|legs| - 1]), NotBeforeOf(legs[|legs| - 1]))
  }

  /** The loop over the legs. */
  method LatestNotBefore(legs: seq<LegPricing>) returns (latest: Option<int>)
    ensures latest == LatestOf(legs)
  {
    latest := None;
    for i := 0 to |legs|
      invariant latest == LatestOf(legs[..i])
    {
      assert legs[..i + 1][..i] == legs[..i];
      if !legs[i].Unpriceable? || legs[i].notBeforeMs.None? {
        continue;
      }
      if latest.None? || legs[i].notBeforeMs.value > latest.value {
        latest := legs[i].notBeforeMs;
      }
    }
    assert legs[..|legs|] == legs;
  }

  /** The latest moment is one of the legs', and none of them is later. */
  lemma {:induction false} LatestIsTheMaximum(legs: seq<LegPricing>)
    ensures LatestOf(legs).None? <==> forall i | 0 <= i < |legs| :: NotBeforeOf(legs[i]).None?
    ensures LatestOf(legs).Some? ==> exists i :: 0 <= i < |legs| && NotBeforeOf(legs[i]) == LatestOf(legs)
    ensures forall i | 0 <= i < |legs| && NotBeforeOf(legs[i]).Some? ::
              LatestOf(legs).Some? && NotBeforeOf(legs[i]).value <= LatestOf(legs).value
  {
    if legs != [] {
      var n := |legs| - 1;
      LatestIsTheMaximum(legs[..n]);
      if LatestOf(legs[..n]).Some? && LatestOf(legs) == LatestOf(legs[..n]) {
        var i :| 0 <= i < n && NotBeforeOf(legs[..n][i]) == LatestOf(legs[..n]);
        assert NotBeforeOf(legs[i]) == LatestOf(legs);
      }
    }
  }

  function PricingRetryOutcome(budget: RetryBudget, notBeforeMs: Option<int>): Result<PricingOutcome, Failure> {
    if budget.attempts + 1 >= budget.maxAttempts then Ok(AttemptsExhausted)
    else
      var scheduledMs :- BackoffDelayMs(budget.attempts, budget.schedule);
      var blockedMs := if notBeforeMs.None? then 0 else notBeforeMs.value - budget.nowMs;
      Ok(Reschedule(if scheduledMs >= blockedMs then scheduledMs else blockedMs))
  }

  function DecidePricingOutcome(budget: RetryBudget, settledAtMs: Option<int>, legIn: LegPricing, legOut: LegPricing)
    : Result<PricingOutcome, Failure>
  {
    var legs := [legIn, legOut];
    if legIn.Absent? && legOut.Absent? then Ok(NothingToPrice)
    else if settledAtMs.None? then Ok(NoSettlementTime)
    else if legIn.Unmappable? || legOut.Unmappable? then Ok(UnmappableToken)
    else if (legIn.Unpriceable? || legOut.Unpriceable?) && !PricedSiblingSettlesEveryMiss(legs) then
      PricingRetryOutcome(budget, LatestOf(legs))
    else Ok(PricedAt(UsdOf(legIn), UsdOf(legOut)))
  }

  /** A leg whose missing price may still turn up at any moment. */
  ghost predicate MayStillBePriced(leg: LegPricing) {
    leg == Unpriceable(None)
  }

  /** An activity is priced exactly when it has settled, some leg has a price, and the other one neither lacks a
      mapping nor may still be priced; the prices written are those of the legs. */
  lemma PricedExactlyWhenNothingIsPending(budget: RetryBudget, settledAtMs: Option<int>, legIn: LegPricing,
                                          legOut: LegPricing)
    ensures var outcome := DecidePricingOutcome(budget, settledAtMs, legIn, legOut);
            outcome.Ok? && outcome.value.PricedAt? <==>
            && settledAtMs.Some? && (legIn.Priced? || legOut.Priced?)
            && !legIn.Unmappable? && !legOut.Unmappable? && !MayStillBePriced(legIn) && !MayStillBePriced(legOut)
    ensures var outcome := DecidePricingOutcome(budget, settledAtMs, legIn, legOut);
            outcome.Ok? && outcome.value.PricedAt? ==>
              && outcome.value == PricedAt(UsdOf(legIn), UsdOf(legOut))
              && (outcome.value.usdIn.Some? || outcome.value.usdOut.Some?)
  {
    var legs := [legIn, legOut];
    assert legs[0] == legIn && legs[1] == legOut;
    assert (exists i | 0 <= i < |legs| :: legs[i].Priced?) <==> legIn.Priced? || legOut.Priced?;
  }

  /** The ways not to price: there is nothing to price, it has not settled, a leg has no mapping, or a price is missing
      that may turn up; the last is retried while attempts are left. */
  lemma NotPricedExactlyWhen(budget: RetryBudget, settledAtMs: Option<int>, legIn: LegPricing, legOut: LegPricing)
    ensures var outcome := DecidePricingOutcome(budget, settledAtMs, legIn, legOut);
            var nothing := legIn.Absent? && legOut.Absent?;
            var unmapped := legIn.Unmappable? || legOut.Unmappable?;
            var waiting := || legIn == Unpriceable(None) || legOut == Unpriceable(None)
                           || (legIn.Unpriceable? && !legOut.Priced?) || (legOut.Unpriceable? && !legIn.Priced?);
            && (outcome == Ok(NothingToPrice) <==> nothing)
            && (outcome == Ok(NoSettlementTime) <==> !nothing && settledAtMs.None?)
            && (outcome == Ok(UnmappableToken) <==> settledAtMs.Some? && unmapped)
            && (outcome == Ok(AttemptsExhausted) <==>
                  settledAtMs.Some? && !unmapped && waiting && budget.attempts + 1 >= budget.maxAttempts)
            && (outcome.Err? || outcome.value.Reschedule? <==>
                  settledAtMs.Some? && !unmapped && waiting && budget.attempts + 1 < budget.maxAttempts)
  {
    hide BackoffDelayMs, LatestOf;
    var legs := [legIn, legOut];
    assert legs[0] == legIn && legs[1] == legOut;
    assert (exists i | 0 <= i < |legs| :: legs[i].Priced?) <==> legIn.Priced? || legOut.Priced?;
  }

  /** A retry waits for the schedule and for every leg's earliest useful moment, and no longer than the last of
      these. */
  lemma RetryWaitsForEveryLeg(budget: RetryBudget, settledAtMs: Option<int>, legIn: LegPricing, legOut: LegPricing,
                              delayMs: int)
    requires DecidePricingOutcome(budget, settledAtMs, legIn, legOut) == Ok(Reschedule(delayMs))
    ensures budget.attempts + 1 < budget.maxAttempts
    ensures BackoffDelayMs(budget.attempts, budget.schedule).Ok?
    ensures delayMs >= BackoffDelayMs(budget.attempts, budget.schedule).value
    ensures forall leg | leg in [legIn, legOut] && IsDefinitiveMiss(leg) ::
              budget.nowMs + delayMs >= leg.notBeforeMs.value
    ensures || delayMs == BackoffDelayMs(budget.attempts, budget.schedule).value
            || exists leg | leg in [legIn, legOut] && IsDefinitiveMiss(leg) ::
                 budget.nowMs + delayMs == leg.notBeforeMs.value
  {
    var legs := [legIn, legOut];
    LatestIsTheMaximum(legs);
    assert NotBeforeOf(legs[0]) == NotBeforeOf(legIn) && NotBeforeOf(legs[1]) == NotBeforeOf(legOut);
    if delayMs != BackoffDelayMs(budget.attempts, budget.schedule).value {
      var i :| 0 <= i < |legs| && NotBeforeOf(legs[i]) == LatestOf(legs);
      assert legs[i] in legs && IsDefinitiveMiss(legs[i]);
    }
  }
}
