# Agent activity ledger: a Dafny model

An agent reports what it did on chain; the server verifies each report against the chain, strikes agents whose
reports do not hold, prices what was verified, and publishes totals, listings, profit figures and curves. This
project models the parts of that system whose correctness no single run shows, and proves what they promise on
every input, every history and every interleaving.

* **Profit ledger.** `DigitText`, `Arithmetic`, `Decimal`, `Lots`, `Ledger`, `Histories`: 18-digit fixed-point decimals, the
  queue of cost lots consumed oldest first, the run over a sorted history with one queue per token key, and what that
  says of the activities themselves.
* **Exact USD texts.** `PriceText`, `Amounts`, `Routes`: pricing a leg without rounding, adding and comparing amounts of
  differing scales, and tallying bridge legs by route.
* **Curves.** `Reals`, `Cubic`, `MonotoneCurve`, `Sparkline`: the two tangent limiters and the cubic they lead to, for
  every parameter between 0 and 1.
* **Pages and limits.** `Paging`, `Listings`: following cursors against reading the whole sorted list. `RateLimit`,
  `RateLimitRuns`: a trimmed list of hits against the full history, under any run of calls and sweeps.
* **Judging a job.** `Chains`, `AddressText`, `Receipt`, `Backoff`, `VerifyJob`, `PricingDecision`: which chains are known,
  what a receipt proves, when a job is retried, settled or given up, and when an activity counts as priced.
* **The database.** `Activities` and `Database` give each row change and each transaction as a function; `Store` is the
  repository whose methods change the tables in place, statement by statement, proved equal to those functions.
  `Protocol` puts them in sequence: agents, any number of verification and pricing workers holding stale claims, operators,
  requeues and purges, in any order; `Statements` says what each does in the fields of the rows, `Execution` shows that the repository carries such runs out, and `RowSteps` what a step
  is for one row. `StrikeLedger`, `Lifting`, `Totals` and `Ingestion` are what holds in every such run.
* **Runs of well-behaved workers.** `Provenance` and `TokenListing`: when outcomes are resolved from claims, which activities
  can be settled, and that every token listing is read whole. `PricingAttempts`, `PricingRuns`: how often a row is put back.
  `VerificationRuns`, `VerificationWorkers`: how long a job is retried, by one worker and by several.

`Ordering` and `Wrappers` hold sorting, filtering and the Option and Result types. Bigints are `int`, the curves'
numbers and the database's numerics are `real`, times are milliseconds, and each SQL transaction is one step.

## What the proofs found

* Splitting one disposal in two leaves the same lots, and the matched cost is the same or exactly one unit lower;
  `n` partial takes of a lot drift its cost by less than `n` units.
* For every threshold of at least one a reopen can end a quarantine while as many independent shapes as the threshold
  remain, but only of an agent an operator has lifted: the lift sets the count to zero and leaves the rows. Of an agent that
  was never lifted, purged or not, it cannot.
* A pricing row is put back at most `maxAttempts - 1` times between requeues exactly when one worker prices and never writes
  twice with a claim, or when no retry is allowed. With `w` workers that write up to `k` times with a claim the bound is
  `maxAttempts - 1 + (w * k - 1)`, and it is met for all of them. `containRowFailure` writes a second time when the reply to
  a committed write is lost, so `k` is 2.
* Ingest lets an event on any chain id through, a negative one included, but only chains of the registry are ever verified
  and so listed: the check of the chain id in a token cursor refuses none that a page hands out.
* The feed's page size has no lower bound; at zero the feed is empty.
* `updated_at` of a hit row is the start of its transaction, so after a wait for the lock the sweep can delete a row whose
  hits still count. It changes no decision of a limiter, and lets no window exceed the limit, exactly when no call waits
  longer than the sweep's window exceeds the limiter's and one millisecond. The sweep's window is the longest of all
  limiters', so a limiter on that window has the one millisecond only.
* Bridge routes are told apart exactly when no two of them spell the same slug pair, which holds of the registry's slugs.

## Model

| member | source | states |
|---|---|---|
| Decimal.TextRoundTrip | packages/core/src/agent-metrics/decimal.ts:9-55 | for every integer number of units, printing and parsing gives it back |
| Decimal.PrintsInjectively | packages/core/src/agent-metrics/decimal.ts:49-55 | two values print the same text only when they are equal |
| Decimal.ParsePrintIsCanonical | packages/core/src/agent-metrics/decimal.ts:9-55 | parsing then printing spells any accepted text canonically, cut to 18 fraction digits |
| Decimal.ParseTruncates | packages/core/src/agent-metrics/decimal.ts:9-17 | the parsed magnitude is the floor of the denoted number in units of 10^-18 |
| Decimal.ShortFractionIsExact | packages/core/src/agent-metrics/decimal.ts:13-15 | texts of at most 18 fraction digits are read without loss |
| Decimal.RawAmountTruncates | packages/core/src/agent-metrics/decimal.ts:19-26 | a raw token amount becomes the floor of amount / 10^decimals in 18-digit units, for every number of decimals |
| Decimal.RoundingIsNearest | packages/core/src/agent-metrics/published-usd.ts:5-12 | rounding gives the nearest whole cent, halves away from zero |
| Decimal.RoundingLaws | packages/core/src/agent-metrics/published-usd.ts:5-12 | rounding is idempotent, odd, monotone and within half a cent |
| Decimal.PublishedIsIdempotent | packages/core/src/agent-metrics/published-usd.ts:14-16 | publishing a published text changes nothing |
| Decimal.PublishedFollowsAmounts | packages/core/src/agent-metrics/published-usd.ts:14-16 | published texts keep the order of the amounts and are the nearest whole cents |
| PriceText.DecimalTextFromIsExact | packages/core/src/pricing/decimal.ts:18-24 | the printer's text denotes value / 10^scale exactly and is canonical, for every value and scale |
| PriceText.CanonicalIsUnique | packages/core/src/pricing/decimal.ts:18-24 | a number has one canonical text |
| PriceText.LegUsdIsExact | packages/core/src/pricing/decimal.ts:26-32 | a leg is priced exactly when raw amount, decimals and price are well formed, and its text denotes raw * price / 10^decimals without rounding |
| PriceText.ReadBackLosesLessThanOneUnit | packages/core/src/agent-metrics/decimal.ts:9-17 | reading a canonical text into the ledger's decimals loses less than 10^-18 |
| PriceText.LegUsdReadBack | packages/core/src/pricing/decimal.ts:26-32 | so pricing a leg and reading it into the ledger loses less than 10^-18 |
| PriceText.PlainDecimalKeepsNumber | packages/core/src/pricing/decimal.ts:34-45 | rewriting what Number::toString writes (section 6.1.6.1.20 of ECMA-262), exponent and all, as a plain decimal keeps the number; negative and non-finite values are refused |
| Amounts.UnitsAreExact | apps/server/src/repos/route-repo.ts:31-42 | at any wide enough scale the units are the number times 10^scale |
| Amounts.AmountFromUnitsDenotes | apps/server/src/repos/route-repo.ts:44-48 | writing units at a scale gives a text that denotes units / 10^scale |
| Amounts.SumIsExact | apps/server/src/repos/route-repo.ts:50-58 | the text of a sum denotes the exact sum of amounts of any scales |
| Amounts.SumIgnoresOrder | apps/server/src/repos/route-repo.ts:50-58 | the same amounts in another order give the same text |
| Amounts.CompareIsNumberOrder | apps/server/src/repos/route-repo.ts:60-66 | comparing two texts is comparing the rationals they denote, in all three outcomes |
| Amounts.CompareIsTransitive | apps/server/src/repos/route-repo.ts:60-66 | the comparison chains although each pair picks its own scale |
| Routes.TallyRoutesBySlugPair | apps/server/src/repos/route-repo.ts:101-125 | the loop over a Map keyed by slug pair builds the tallies of the specification, in order of first appearance |
| Routes.TallyConserves | apps/server/src/repos/route-repo.ts:101-125 | no leg and no volume of a group with both chains resolved is lost or counted twice |
| Routes.TallyConservesVolume | apps/server/src/repos/route-repo.ts:101-125 | so the grand total of published volumes is that of the groups |
| Routes.TalliesRunFromTo | apps/server/src/repos/route-repo.ts:107-118 | every tally runs from the chain a group left to the chain it reached |
| Routes.TallyIsByRoute | apps/server/src/repos/route-repo.ts:101-125 | there is one tally per route, holding exactly that route's groups, if and only if no two routes of the groups spell one slug pair |
| Routes.TallyKeysDiffer | apps/server/src/repos/route-repo.ts:110-123 | whatever the slugs, no two tallies share a slug pair |
| Routes.PlainSlugsSeparate | apps/server/src/repos/route-repo.ts:110 | slugs free of '>' keep all routes apart |
| Routes.PublishedRoutesAreSeparate | packages/core/src/bridge-chain.ts:4-8 | with the registry's slugs every published route is its own, for any groups |
| Lots.LotQueue.constructor | packages/core/src/agent-metrics/realized-result.ts:82 | a new queue holds no lots |
| Lots.LotQueue.Push | packages/core/src/agent-metrics/realized-result.ts:114-117 | a lot is added behind the others |
| Lots.LotQueue.ConsumeInventory | packages/core/src/agent-metrics/realized-result.ts:52-77 | the loop that shifts and shrinks lots leaves the lots, and returns the match, of the recursive specification |
| Lots.ConsumeConserves | packages/core/src/agent-metrics/realized-result.ts:52-77 | matched plus remaining is what was held, exactly, in quantity and in cost |
| Lots.ConsumeTakesOldest | packages/core/src/agent-metrics/realized-result.ts:52-77 | what is asked for and held is matched, oldest first; later lots are untouched and every remaining lot is positive |
| Lots.PartIsFloor | packages/core/src/agent-metrics/decimal.ts:36-39 | the part of a non-negative cost is a floor between nothing and the whole |
| Lots.CutLotLosesItsShare | packages/core/src/agent-metrics/realized-result.ts:57-75 | lots go whole, oldest first, and the one that is cut loses just the rest of what was asked for and the floor of its share of the cost |
| Lots.SplittingADisposal | packages/core/src/agent-metrics/realized-result.ts:52-77 | consuming in two steps leaves the same lot quantities as in one, and the matched cost is equal or one unit lower |
| Lots.OneTakeDrifts | packages/core/src/agent-metrics/realized-result.ts:60-74 | a further partial take never lets the unit cost fall and raises the drift by less than one unit of cost |
| Lots.DriftIsBounded | packages/core/src/agent-metrics/realized-result.ts:60-74 | after n >= 1 partial takes C*q <= c*Q < C*q + n*Q |
| Ledger.Inventory.constructor | packages/core/src/agent-metrics/realized-result.ts:88 | the inventory starts empty |
| Ledger.Inventory.LotsFor | packages/core/src/agent-metrics/realized-result.ts:79-85 | every key has a queue of its own, created empty on first use |
| Ledger.Inventory.Dispose | packages/core/src/agent-metrics/realized-result.ts:97-100 | a disposal changes its own key's lots and no others |
| Ledger.Inventory.Receive | packages/core/src/agent-metrics/realized-result.ts:113-117 | a positive acquisition is pushed on its key, another does nothing |
| Ledger.Inventory.Settle | packages/core/src/agent-metrics/realized-result.ts:97-117 | one pass disposes first and then receives, also when both legs share a queue |
| Ledger.RealizedResultOf | packages/core/src/agent-metrics/realized-result.ts:87-126 | the loop with its Map and counters computes the result of the specification, or the first malformed amount's error |
| Histories.SwapSpendsAndReceives | packages/core/src/agent-metrics/realized-result.ts:30-50 | a priced swap disposes of its spent leg and acquires its received leg, with quantity from the raw amount and usd from the price; it is a trade exactly when neither leg lacks anything, and fails exactly when a complete leg is malformed |
| Histories.InventoryIsSharedExactlyWhen | packages/core/src/agent-metrics/realized-result.ts:26-28 | two legs share an inventory exactly when chain family, chain and address agree but for the case of letters |
| Histories.HistoryIsOldestFirst | packages/core/src/agent-metrics/agent-activity.ts:34-42 | the history is a permutation of the activities, by time and then by id, ascending |
| Histories.TradeIsSettled | packages/core/src/agent-metrics/realized-result.ts:97-117 | a trade takes what it disposes of from what was held of it, then adds what it acquired at its price, and touches no other token |
| Histories.TradeIsRealized | packages/core/src/agent-metrics/realized-result.ts:101-111 | it realizes the floor of the share of its proceeds that was matched, toward zero, less the cost of that |
| Histories.RoundTripPays | packages/core/src/agent-metrics/realized-result.ts:87-126 | of any purchase and whole sale of it, in either order of arrival, the report shows sale less cost, one round trip, and a win exactly when that is positive |
| Ledger.OrderIndependence | packages/core/src/agent-metrics/agent-activity.ts:34-42 | with distinct ids every arrangement of the input gives the same result |
| Ledger.LedgerConserves | packages/core/src/agent-metrics/realized-result.ts:87-126 | per key, over any history: acquired = matched + remaining in quantity, pushed = matched + remaining in cost, every lot positive |
| Ledger.CostIsConserved | packages/core/src/agent-metrics/realized-result.ts:87-126 | over all keys the cost pushed is the cost matched plus the cost held |
| Ledger.RealizedIsAccountedFor | packages/core/src/agent-metrics/realized-result.ts:87-126 | realized = matched proceeds - cost of everything bought + cost still held, exactly |
| Ledger.CountsAreBounded | packages/core/src/agent-metrics/realized-result.ts:101-111 | winning <= closed <= trades and unmatched <= trades |
| Ledger.CountersMeaning | packages/core/src/agent-metrics/realized-result.ts:101-111 | when each counter moves, in terms of what was asked for, held and gained |
| Cubic.SegmentIsMonotone | apps/web/lib/monotone-curve.ts:70-76 | with both tangents within three times the slope the height is monotone for all t in [0,1] |
| Cubic.SegmentShape | apps/web/lib/monotone-curve.ts:70-76 | a segment meets its end points, moves evenly to the right and is flat between level points with level tangents |
| Cubic.WithinIsFaithful | apps/web/lib/monotone-curve.ts:70-76 | hence it stays between the heights of its ends and never turns back |
| MonotoneCurve.IntervalsBetween | apps/web/lib/monotone-curve.ts:12-21 | the loop lists one interval with its slope for each pair of neighbours |
| MonotoneCurve.InitialTangents | apps/web/lib/monotone-curve.ts:23-37 | the loop yields the tangents of the specification, one per point |
| MonotoneCurve.GentleTangentStays | apps/web/lib/monotone-curve.ts:23-59 | where slopes are within a factor three of each other no clamp changes a tangent |
| MonotoneCurve.ClampMeaning | apps/web/lib/monotone-curve.ts:41-57 | a clamp levels the tangents of a level interval, leaves a pair whose squares are at most nine times the slope's, and draws any other in, keeping its ratio, until they are just that |
| MonotoneCurve.ClampTangentsToMonotone | apps/web/lib/monotone-curve.ts:39-59 | the loop that rewrites the tangents in place computes the fold of its steps |
| MonotoneCurve.MonotoneCurveSegments | apps/web/lib/monotone-curve.ts:61-79 | one segment per interval, joining its points without turning back, with controls a third of the way in; at each inner point one direction, level at a turn, and the mean of its two slopes where these are gentle; at gentle ends the end slope |
| MonotoneCurve.ClampStepFits | apps/web/lib/monotone-curve.ts:41-57 | a step fits its own interval and only draws tangents toward zero |
| MonotoneCurve.ClampedFits | apps/web/lib/monotone-curve.ts:41-57 | after n steps the first n intervals fit, although each step rewrites a tangent of the one before |
| MonotoneCurve.NoOvershoot | apps/web/lib/monotone-curve.ts:61-79 | for strictly increasing x every drawn segment is monotone between its points for all t, with x linear in t |
| MonotoneCurve.StraightDataStaysStraight | apps/web/lib/monotone-curve.ts:23-79 | points on a line are joined by that line |
| Sparkline.NeighborPairs | apps/web/lib/sparkline.ts:85-92 | the loop lists each item with its successor |
| Sparkline.LimitedTangentIsWithin | apps/web/lib/sparkline.ts:72-79 | an inner tangent is at most twice either neighbouring slope, has their sign, and vanishes at a turn |
| Sparkline.LimitedTangentMeaning | apps/web/lib/sparkline.ts:72-79 | between slopes of one sign it is their mean, cut to twice the flatter, and level otherwise |
| Sparkline.EndsAreUnbent | apps/web/lib/sparkline.ts:81-83 | the curve begins and ends without bending |
| Sparkline.TangentsFit | apps/web/lib/sparkline.ts:62-83 | every tangent, the two ends included, is within three times the slopes beside it |
| Sparkline.CurveIsFaithful | apps/web/lib/sparkline.ts:50-70 | so no segment overshoots |
| Sparkline.StraightDataStaysStraight | apps/web/lib/sparkline.ts:62-83 | points on a line are joined by that line |
| Sparkline.PathStaysInBox | apps/web/lib/sparkline.ts:5-60 | the whole unrounded path of any series, level, straight or curved, stays inside [0, width] x [0, height] |
| Sparkline.PathPassesTheValues | apps/web/lib/sparkline.ts:22-34 | it passes every value at its place: evenly spaced, the highest at the top, the lowest at the bottom, every other in proportion |
| Sparkline.LargerIsNoLower | apps/web/lib/sparkline.ts:31 | so a larger value is drawn no lower on the page |
| Sparkline.LevelSeriesIsLevel | apps/web/lib/sparkline.ts:5-11 | equal values are a level line half way up, no values one along the bottom |
| Paging.RemainingIsSuffix | apps/server/src/repos/token-repo.ts:236-246 | the rows past a row's cursor, sorted, are the suffix after that row |
| Paging.PageIsStretch | apps/server/src/routes/public/tokens.ts:130-136 | a page is the next stretch of the sorted list, with a cursor exactly when more follows |
| Paging.FollowReadsEverything | apps/server/src/routes/public/tokens.ts:116-139 | following cursors terminates, and reads the whole sorted list exactly when no cursor on the way is refused, else a prefix |
| Paging.EmptyPageEndsTheWalk | apps/server/src/routes/public/activity.ts:64-69 | a page size of zero reads nothing and offers no cursor |
| Chains.KnownChains | packages/core/src/chain-registry/registry.ts:10-18 | no chain the registry resolves has an id below 1 or a '>' in its slug |
| Chains.TierIsByFamily | packages/core/src/chain-registry/registry.ts:15-18 | chains of the first family are of the full tier and found by number alone, others of the basic tier and found by the provider's number |
| Chains.BridgeChainMeaning | packages/core/src/bridge-chain.ts:4-8 | a bridge leg is on the provider's own chain of that number if it has one, else on the common one |
| Listings.ListedRowsAreAccepted | apps/server/src/routes/public/tokens.ts:22-47 | the check of a cursor never refuses that of a row with a known family, an address, a transaction and a resolved chain |
| Listings.TokenPagingIsComplete | apps/server/src/repos/token-repo.ts:236-246 | for the five-key mixed-direction order the pages of such rows concatenate to the sorted listing, to its end, for every page size |
| Listings.TokensAreReadInOrder | apps/server/src/repos/token-repo.ts:236-248 | what is read is a permutation of the table: by volume and transactions descending, then by address, chain family and chain ascending |
| Listings.SlugOfFirstKnown | apps/server/src/routes/public/tokens.ts:68-75 | a token is shown under the slug of its first protocol whose chain is known, and dropped exactly when there is none |
| Listings.ListedRowsAreShown | apps/server/src/routes/public/tokens.ts:77-95 | of such rows the listing drops none, and shows each under its first protocol's slug |
| Listings.ListedTokens | apps/server/src/routes/public/tokens.ts:77-95 | the loop lists the tokens whose chain resolves, in order |
| Listings.ListingSplits | apps/server/src/routes/public/tokens.ts:130-136 | dropping unresolved tokens page by page drops them from the whole list |
| Listings.AgentPagingIsComplete | apps/server/src/repos/read-repo.ts:493-509 | leaderboard pages concatenate to the sorted leaderboard |
| Listings.CursorsAreRefusedExactlyWhen | apps/server/src/routes/public/tokens.ts:22-47 | which token and agent cursors a client may not send |
| Listings.AgentsAreReadInOrder | apps/server/src/repos/read-repo.ts:493-509 | what is read is a permutation of the table, by volume descending and then by hash |
| Listings.FeedPagingIsComplete | apps/server/src/repos/read-repo.ts:234-243 | feed pages concatenate to the feed sorted by truncated time and id, for every page size but zero, which shows nothing |
| Listings.FeedIsReadInOrder | apps/server/src/repos/read-repo.ts:234-243 | what is read is a permutation of the table, by millisecond and then by id, both descending |
| Listings.UntruncatedOrderWouldLoseRows | apps/server/src/repos/activity-time-anchor.ts:13-15 | ordered by microseconds, two pages over any two rows of one millisecond lose the earlier one exactly when its id is the larger, so the truncation is needed |
| RateLimit.TrimmingIsHarmless | apps/server/src/plugins/rate-limit.ts:16-28 | the trimmed list and the full history of admitted hits agree on what is live at every later moment |
| RateLimit.DecidesAsFullHistory | apps/server/src/plugins/rate-limit.ts:16-28 | so every decision is that of a filter over the full history |
| RateLimit.NoWindowExceedsLimit | apps/server/src/plugins/rate-limit.ts:16-28 | no interval (x, x + window] holds more admitted hits than the limit |
| RateLimit.RowIsSmallAndOrdered | apps/server/src/plugins/rate-limit.ts:16-28 | a stored list is ordered and no longer than the limit |
| RateLimit.DeniedUntilFree | apps/server/src/plugins/rate-limit.ts:16-28 | once the window is full every call is denied until its oldest hit leaves it, however many calls are made |
| RateLimit.RetryAfterIsExact | apps/server/src/plugins/rate-limit.ts:19-26 | with any calls in between, the caller is admitted after retryAfterSec unless another was admitted meanwhile, and when the advice is two or more nobody is admitted for all but the last second |
| RateLimit.PostgresSlidingWindowLimiter.constructor | apps/server/src/repos/rate-limit-repo.ts:13-17 | the limiter keeps its limit and window |
| RateLimit.PostgresSlidingWindowLimiter.Allow | apps/server/src/repos/rate-limit-repo.ts:19-48 | a call decides from its key's row, rewrites that row and no other |
| RateLimit.PostgresSlidingWindowLimiter.DeleteExpiredRateLimitHits | apps/server/src/repos/rate-limit-repo.ts:51-60 | the sweep removes exactly the rows written before the window and counts them |
| RateLimit.LosingARow | apps/server/src/repos/rate-limit-repo.ts:51-60 | losing a row changes a later outcome exactly when one of its hits is live then |
| RateLimit.SweepIsHarmless | apps/server/src/repos/rate-limit-repo.ts:34-60 | losing a row to the sweep changes nothing while its hits trail its transaction's start by no more than the slack between the windows and a millisecond |
| RateLimitRuns.RunDecidesAsWindow | apps/server/src/repos/rate-limit-repo.ts:19-60 | in any run of calls on any keys and sweeps, while the key's calls wait no longer than the slack and a millisecond, a call decides as the window over its own key's calls |
| RateLimitRuns.RunAdmitsAsWindow | apps/server/src/repos/rate-limit-repo.ts:19-60 | so the hits such a run admits for a key are those its calls alone would have |
| RateLimitRuns.NoRunExceedsLimit | apps/server/src/plugins/rate-limit.ts:16-28 | and in no such run does an interval of a key's window hold more admitted hits than its limit |
| RateLimitRuns.LongWaitForgetsLiveHits | apps/server/src/worker/purge.ts:14-20 | for every limiter with a positive limit and window and every longer wait, a run with one sweep admits a call that the window over the key's calls denies |
| RateLimitRuns.LongWaitExceedsLimit | apps/server/src/worker/purge.ts:14-20 | and goes on to admit one hit more than the limit within one window |
| RateLimitRuns.DecidesAsWindowExactlyWhen | apps/server/src/repos/rate-limit-repo.ts:19-60 | every run with waits up to w decides as the window if and only if w is at most the slack and a millisecond, or the limiter has no positive limit and window |
| RateLimitRuns.NeverExceedsLimitExactlyWhen | apps/server/src/repos/rate-limit-repo.ts:19-60 | every run with waits up to w keeps to the limit in every window if and only if the same holds |
| Receipt.SomeCounterpartyMovedTheDeclaredTotal | packages/core/src/verification/evaluate.ts:97-109 | the Map loop decides whether some named party's total is near the declared amount |
| Receipt.VerdictIgnoresTransferOrder | packages/core/src/verification/evaluate.ts:24-109 | permuting the transfers of a receipt changes no verdict |
| Receipt.VerdictIgnoresCaseAndUnit | packages/core/src/verification/evaluate.ts:24-119 | address case and scaling every raw amount by k > 0 change no verdict |
| Receipt.WiderToleranceKeepsVerified | packages/core/src/verification/evaluate.ts:111-115 | raising the amount tolerance never takes a full verification back |
| Receipt.ToleranceMeansPercent | packages/core/src/verification/evaluate.ts:111-115 | a tolerance of n percent admits exactly the amounts within n hundredths of the declared one, both ends included |
| Receipt.ToleranceMeansBasisPoints | packages/core/src/verification/evaluate.ts:111-115 | any tolerance is its nearest whole number of basis points of the declared amount, on either side |
| Receipt.NativeAddresses | packages/core/src/evm-native-address.ts:1-7 | the native coin is the address of forty zeros or of forty times e, in either case |
| Receipt.LegJudgementMeaning | packages/core/src/verification/evaluate.ts:78-109 | a leg matches exactly when a transfer of its token, or all its party moved on that side, is near, and mismatches exactly when none is although there was something to read or nothing to read |
| Receipt.LegMismatchIsProven | packages/core/src/verification/evaluate.ts:78-95 | a leg mismatches exactly when its transfers were read and neither one of them nor a party's total is near |
| Receipt.FullVerificationIsShown | packages/core/src/verification/evaluate.ts:24-95 | a full verification is exactly an unreverted, timely receipt that shows the input on the sending side and the output on the receiving side |
| Backoff.BackoffAlwaysAnswers | packages/core/src/backoff.ts:17-32 | giving up is exactly being past the age; until then a usable schedule gives at least a second |
| Backoff.IntervalIsCountOfUnits | packages/core/src/backoff.ts:1-15 | n seconds, minutes or hours are n times 1,000, 60,000 or 3,600,000 milliseconds |
| Backoff.OtherIntervalsAreRefused | packages/core/src/backoff.ts:6-15 | an interval is digits and one of the three units, and anything else is refused |
| Backoff.ScheduleIsReadInOrder | packages/core/src/backoff.ts:17-21 | attempt by attempt the schedule is read in order, its last entry for good |
| VerifyJob.FullVerificationExactlyWhen | apps/server/src/worker/verify-job.ts:56-92 | a job verifies in full exactly when chain and kind allow it and a successful, timely receipt shows its executedIn of its input token sent and its executedOut of its output token received, within the tolerance |
| VerifyJob.BasicVerificationExactlyWhen | apps/server/src/worker/verify-job.ts:56-92 | and basically exactly when such a receipt was read and chain or kind do not allow more |
| VerifyJob.StrikesAreProven | apps/server/src/worker/verify-job.ts:56-119 | a strike is finalised exactly on a read receipt that shows the fault in the job's own fields, or on an expired not-found that corroboration calls missing; never on a reader error |
| VerifyJob.SuccessIsReadFromTheReceipt | apps/server/src/worker/verify-job.ts:88-92 | only a found, unreverted receipt verifies, with its block time, and fully only where chain and kind allow the full tier |
| VerifyJob.ClosesAreDeserved | apps/server/src/worker/verify-job.ts:56-119 | a job is closed for a reason exactly when that reason holds of what was read, and but for a missing hash only past its time |
| VerifyJob.ExpiredJobFinishes | apps/server/src/worker/verify-job.ts:56-119 | past the maximum age no visit reschedules, whatever the reader does and however schedules are written |
| VerifyJob.RetriesFollowTheSchedule | apps/server/src/worker/verify-job.ts:62-107 | a job put back waits what the schedule says of its attempts, or so many minutes where the chain is unknown, and says why |
| PricingDecision.LatestNotBefore | packages/core/src/pricing/pricing-decision.ts:48-55 | the loop finds the latest moment of the specification |
| PricingDecision.LatestIsTheMaximum | packages/core/src/pricing/pricing-decision.ts:48-55 | that moment is one of the legs' and none is later |
| PricingDecision.PricedExactlyWhenNothingIsPending | packages/core/src/pricing/pricing-decision.ts:67-78 | an activity is priced exactly when settled, with some leg priced and no leg unmappable or still able to be priced |
| PricingDecision.NotPricedExactlyWhen | packages/core/src/pricing/pricing-decision.ts:57-78 | when each other outcome is given: nothing to price, no settlement time, no mapping, a retry, and no attempts left |
| PricingDecision.RetryWaitsForEveryLeg | packages/core/src/pricing/pricing-decision.ts:57-78 | a retry waits for the schedule and every leg's earliest moment, and no longer than the last of these |
| PricingAttempts.PutBackBound | packages/core/src/pricing/pricing-decision.ts:57-65 | between requeues, whatever w workers with k writes a claim still hold, a row is put back at most maxAttempts - 1 + w*k - 1 times, and not at all without a retry |
| PricingAttempts.PutBackBoundIsMet | packages/core/src/pricing/pricing-decision.ts:57-65 | for every budget and every number of workers and writes some run meets that bound |
| PricingAttempts.OneBudgetExactlyWhen | packages/core/src/pricing/pricing-decision.ts:57-65 | every run stays within maxAttempts - 1 if and only if one worker writes once a claim, or there is no retry |
| Activities.ReplayChangesNothing | packages/core/src/ingest-decision.ts:30-40 | an event whose status was seen leaves the row and enqueues nothing |
| Activities.IngestIsAFold | apps/server/src/repos/activities-ingest-repo.ts:201-228 | for one source row and any events: status is the first terminal one else pending, statuses seen are the distinct ones in order, one job is written exactly when that status is confirmed and a hash was carried |
| Store.Repository.constructor | db/schema.sql:26 | the tables start empty |
| Store.Repository.UpsertAgentRegistration | apps/server/src/repos/agents-repo.ts:13-42 | a new agent is inserted, a known one with the same token reactivated, another token refused |
| Store.Repository.RevokeAgent | apps/server/src/repos/agents-repo.ts:44-50 | an agent that is not revoked is |
| Store.Repository.ClaimWallet | apps/server/src/repos/handshake-repo.ts:162-187 | a proven wallet belongs to the agent that proved it, known before or not |
| Store.Repository.CompleteHandshakeBinding | apps/server/src/repos/handshake-repo.ts:189-199 | a new agent is active, a known one gets the new token and keeps its standing, and each proven wallet in turn becomes its own |
| Store.Repository.EnqueueWhenQueued | apps/server/src/repos/activities-ingest-repo.ts:79-96 | a job is written when the row came back queued and has none |
| Store.Repository.InsertActivity | apps/server/src/repos/activities-ingest-repo.ts:98-161 | an unknown source row is inserted under the next id |
| Store.Repository.PromotePendingActivity | apps/server/src/repos/activities-ingest-repo.ts:163-199 | a pending row takes the terminal status and what the event adds, no other row is touched |
| Store.Repository.ApplyEvent | apps/server/src/repos/activities-ingest-repo.ts:201-228 | the transaction of one event is the ingest step, and tells accepted from duplicate |
| Store.Repository.ClaimDueJob | apps/server/src/repos/activities-verify-repo.ts:51-64 | a due job of a row that is not superseded is leased |
| Store.Repository.ClaimDueJobs | apps/server/src/repos/activities-verify-repo.ts:46-91 | a batch takes the due jobs that are not locked in order of due time up to the limit, leases those of rows that are not superseded and returns exactly their claims |
| Store.Repository.DeleteJob | apps/server/src/repos/activities-verify-repo.ts:238-240 | the job is gone, others stay |
| Store.Repository.RecordVerifiedSuccess | apps/server/src/repos/activities-verify-repo.ts:179-197 | the agent's first verification is stamped once, the bucket grows by one and by the row's contribution |
| Store.Repository.RecordStrike | apps/server/src/repos/activities-verify-repo.ts:199-224 | a row is added, the count raised and the agent quarantined at the threshold of independent shapes |
| Store.Repository.FinalizeVerification | apps/server/src/repos/activities-verify-repo.ts:131-153 | a queued row is settled with its effects, anything else left alone |
| Store.Repository.CloseUnverifiable | apps/server/src/repos/activities-verify-repo.ts:171-177 | a queued row goes back to none and its job is deleted |
| Store.Repository.RescheduleJob | apps/server/src/repos/activities-verify-repo.ts:155-169 | an existing job is put off and counts an attempt |
| Store.Repository.ApplyJobOutcome | apps/server/src/worker/apply-outcome.ts:10-25 | each outcome is dispatched to its step |
| Store.Repository.RetryVerification | apps/server/src/cli/verify-retry.ts:24-47 | a confirmed, hashed row in state none is queued anew with a fresh job |
| Store.Repository.RestoreAgentStanding | apps/server/src/cli/verify-reopen.ts:26-46 | withdrawn strikes lower the count, not below zero, and end a quarantine under the threshold |
| Store.Repository.ReopenVerification | apps/server/src/cli/verify-reopen.ts:48-86 | a mismatched row is queued anew, its strikes withdrawn, its agent restored and the reopening noted |
| Store.Repository.LiftQuarantine | apps/server/src/cli/quarantine.ts:17-32 | a quarantined agent becomes active with a count of zero, and the lift is noted |
| Store.Repository.ClaimDuePricingRow | apps/server/src/repos/activity-pricing-repo.ts:59-78 | a due, verified, pending row is leased and read as it is |
| Store.Repository.ClaimDuePricingRows | apps/server/src/repos/activity-pricing-repo.ts:54-101 | a batch takes the due rows that are not locked in order of id up to the limit, leases them and returns exactly their claims |
| Store.Repository.MarkServerPriced | apps/server/src/repos/activity-pricing-repo.ts:181-198 | the compare-and-swap on the pending state, and whether it won |
| Store.Repository.AddPricedVolume | apps/server/src/repos/activity-pricing-repo.ts:200-211 | the bucket's priced volume grows, its other figures do not |
| Store.Repository.PublishPricedActivity | apps/server/src/worker/pricing-loop.ts:228-243 | volume is added only when the swap won |
| Store.Repository.ReschedulePricing | apps/server/src/repos/activity-pricing-repo.ts:213-221 | a pending row counts an attempt and is put off |
| Store.Repository.ExhaustPricing | apps/server/src/repos/activity-pricing-repo.ts:232-241 | a pending row becomes unpriced and counts an attempt |
| Store.Repository.AbandonPricing | apps/server/src/repos/activity-pricing-repo.ts:223-230 | a pending row becomes unpriced |
| Store.Repository.ApplyPricingOutcome | apps/server/src/worker/pricing-loop.ts:245-263 | each pricing outcome is dispatched to its write |
| Store.Repository.RequeueUnpricedActivities | apps/server/src/cli/pricing-requeue.ts:3-17 | every unpriced row in scope is pending again with no attempts, and their number is returned |
| Store.Repository.DeleteActivitiesOf | apps/server/src/repos/purge-repo.ts:17 | the agent's activities are gone with their jobs and index entries, and counted |
| Store.Repository.DeleteStrikesOf | apps/server/src/repos/purge-repo.ts:18 | its strikes are gone, and the count says whether there were any |
| Store.Repository.DeleteWalletsOf | apps/server/src/repos/purge-repo.ts:19 | its wallets are gone, and counted |
| Store.Repository.StampPurged | apps/server/src/repos/purge-repo.ts:20-23 | the agent is stamped unless it already was |
| Store.Repository.PurgeAgentData | apps/server/src/repos/purge-repo.ts:13-37 | the transaction is the purge step, wallets included, and reports true exactly when the database changed |
| Database.PurgeShows | apps/server/src/repos/purge-repo.ts:25-30 | a purge changes the database exactly when there was an activity, strike or wallet to delete or an agent to stamp |
| Statements.PublishingAddsThePrice | apps/server/src/worker/pricing-loop.ts:204-243 | publishing adds usdIn, else usdOut, to the claim's bucket for a swap, bridge deposit, lend deposit or prediction purchase and nothing for any other role, and touches nothing else of the totals |
| Statements.OnlyPublishingAdds | apps/server/src/worker/pricing-loop.ts:245-263 | no other pricing write moves a total |
| Statements.SuccessAddsTheEstimate | apps/server/src/repos/activities-verify-repo.ts:179-197 | a success adds one, and the client's estimate under the same roles, to the bucket of its settlement day, protocol and kind |
| Statements.VerdictIsKept | apps/server/src/repos/activities-verify-repo.ts:131-153 | a verdict is written with its time and a success with its block's, and nothing else of the row changes |
| Statements.FirstSuccessIsStamped | apps/server/src/repos/activities-verify-repo.ts:179-187 | an agent's first success is stamped and later ones leave the stamp |
| Statements.StrikeIsRecorded | apps/server/src/repos/activities-verify-repo.ts:145-224 | a failed verdict is a strike row and a count, but for a token launch, and moves no total |
| Statements.SameShapeExactlyWhen | apps/server/src/repos/activities-verify-repo.ts:226-236 | two strikes have one shape exactly when cause, protocol, kind, role, chain family and chain agree |
| Statements.RegisteringMeaning | apps/server/src/repos/agents-repo.ts:13-42 | what registering leaves of an unknown agent, of one with this token and of one with another |
| Statements.RevokingMeaning | apps/server/src/repos/agents-repo.ts:44-50 | revoking stamps an agent once |
| Statements.BindingMeaning | apps/server/src/repos/handshake-repo.ts:109-199 | a handshake changes its agent's token alone and hands it exactly the wallets it proved |
| Statements.QuarantineEndsWithItsStamp | apps/server/src/cli/verify-reopen.ts:38-45 | a lift and a reopen that end a quarantine clear its stamp |
| Statements.JobIsClaimableExactlyWhen | apps/server/src/repos/activities-verify-repo.ts:44-64 | a job is claimable exactly when due and its row still claims an inclusion |
| Statements.PricingIsClaimableExactlyWhen | apps/server/src/repos/activity-pricing-repo.ts:63-71 | a row is claimable for pricing exactly when pending, verified, due and datable |
| Statements.JobClaimMeaning | apps/server/src/repos/activities-verify-repo.ts:64-91 | what is handed out of a claimed job |
| Statements.PricingClaimMeaning | apps/server/src/repos/activity-pricing-repo.ts:72-101 | what is handed out of a claimed row, settlement time and bucket included |
| Statements.DueMeaning | apps/server/src/repos/activities-verify-repo.ts:58-62 | which rows a batch may take |
| Statements.RetryableExactlyWhen | apps/server/src/cli/verify-retry.ts:24-47 | what an operator may retry, and what reopen |
| Statements.RequeueMeaning | apps/server/src/cli/pricing-requeue.ts:3-17 | what a requeue does to each row |
| Statements.OutcomeIsWritten | apps/server/src/worker/pricing-loop.ts:245-263 | what each pricing outcome leaves of its row |
| Protocol.QueueStaysConsistent | apps/server/src/repos/activities-verify-repo.ts:131-177 | in every run an activity has a job exactly when it is queued, and then it is confirmed with a hash, however stale the outcomes applied |
| Protocol.LeaseHoldsOff | apps/server/src/repos/activities-verify-repo.ts:46-75 | a claimed job may be claimed again exactly once its lease is over |
| Protocol.PricingLeaseHoldsOff | apps/server/src/repos/activity-pricing-repo.ts:54-80 | and so may a claimed pricing row |
| Protocol.PutOffJobWaits | apps/server/src/repos/activities-verify-repo.ts:155-169 | a rescheduled job counts one attempt, keeps its first, and is not claimed before its delay is over |
| Protocol.PutBackRowWaits | apps/server/src/repos/activity-pricing-repo.ts:213-221 | nor is a rescheduled pricing row, which stays pending |
| Protocol.PurgeIsThorough | apps/server/src/repos/purge-repo.ts:13-37 | a purge leaves nothing of its agent but the stamp, its wallets included, touches no other agent and no published total, and purging twice is purging once |
| Execution.Execute | apps/server/src/worker/loop.ts:105-112 | a repository driven through any run ends with exactly the run's tables and claims, so what holds in every run holds of it |
| Execution.JobBatchIsARun | apps/server/src/repos/activities-verify-repo.ts:46-75 | claiming a batch of jobs is the run that claims them one by one |
| Execution.PricingBatchIsARun | apps/server/src/repos/activity-pricing-repo.ts:54-80 | and so is claiming a batch of pricing rows, with the same claims |
| Provenance.SettledOnKnownChains | apps/server/src/worker/verify-job.ts:56-119 | in every run whose outcomes are resolved from claims the registry knows the chain of every verified or mismatched activity, and a full verification is one that chain and kind allow |
| TokenListing.EveryListingIsReadWhole | apps/server/src/repos/token-repo.ts:38-59 | over every database such a run reaches and for every page size, the pages of the token listing are a permutation of it in its order, largest volume first, and none drops a token |
| PricingRuns.PutBacksAreBounded | apps/server/src/worker/pricing-loop.ts:371-411 | in every run with w pricing workers that write at most k times a claim, and only what was decided from it, a row's attempts stay within maxAttempts - 1 + w*k - 1, and one more when given up |
| PricingRuns.BoundIsMet | apps/server/src/worker/pricing-loop.ts:371-411 | any such run in which a verified row has no attempts yet can go on to meet that bound, for every lease and schedule |
| PricingRuns.OneBudgetBoundsRunsExactlyWhen | apps/server/src/worker/pricing-loop.ts:391-411 | a pending row stays within maxAttempts - 1 in every run if and only if one worker writes once a claim, or there is no retry |
| VerificationRuns.RetriesFitInTheWindow | apps/server/src/worker/loop.ts:73-130 | in every run with one verification worker and positive schedules a job's delays before its last retry sum to at most the maximum age, whatever the reader answers, so its retries are bounded |
| VerificationWorkers.RetriesAreBounded | apps/server/src/worker/loop.ts:73-130 | in every run of w workers with leases of a second or more a job is put back at most w times and once more for each second of the maximum age, stale claims of an earlier job included |
| StrikeLedger.ShapesAreThoseStruck | apps/server/src/repos/activities-verify-repo.ts:226-236 | the independent shapes are those of the agent's strikes on activities still there |
| StrikeLedger.ShapesAreFewer | apps/server/src/repos/activities-verify-repo.ts:226-236 | an agent has no more shapes than activity strikes |
| StrikeLedger.StrikeLedgerHolds | apps/server/src/repos/activities-verify-repo.ts:131-236 | in every run: one strike row per mismatched activity that is no token launch and none otherwise; counts cover the rows without a lift and are covered by them until a purge; a quarantined agent never lifted nor purged has the threshold |
| StrikeLedger.StrikeQuarantinesAtThreshold | apps/server/src/repos/activities-verify-repo.ts:199-224 | a strike quarantines exactly at the threshold of independent shapes and touches no other agent |
| StrikeLedger.ReopenLiftsOnlyBelowThreshold | apps/server/src/cli/verify-reopen.ts:26-93 | of an agent never lifted, purged or not, a reopen that ends a quarantine leaves fewer shapes than the threshold; unless it was purged it ends one exactly when it withdraws a strike and leaves fewer strikes than the threshold |
| Lifting.NextStrikeQuarantines | apps/server/src/repos/activities-verify-repo.ts:199-224 | an agent lifted with the threshold of shapes is quarantined again by its next strike, with a count of one |
| Lifting.ReopenAfterALiftKeepsShapes | apps/server/src/cli/quarantine.ts:17-32 | and reopening that strike ends the quarantine and leaves exactly the shapes there were, for every threshold and every consistent database |
| Lifting.CampaignStrikes | apps/server/src/repos/activities-verify-repo.ts:199-236 | for every k a run strikes one agent in k shapes, and quarantines it once k reaches the threshold |
| Lifting.SomeReopenIsUnsafe | apps/server/src/cli/verify-reopen.ts:26-93 | so for every threshold such a reopen is reachable |
| Lifting.ReopensAreSafeExactlyWithoutLifts | apps/server/src/cli/verify-reopen.ts:26-93 | over all runs, reopens that end a quarantine leave fewer shapes than the threshold if and only if lifted agents are left out, or the threshold is not positive |
| Totals.EachActivityCountsOnce | apps/server/src/repos/activities-verify-repo.ts:179-197 | in every run each bucket's count and volumes are those of the activities ever verified, and ever priced, there, each once; a live row counts by its role, with its estimate and the prices written on it, on its settlement day |
| Totals.VerifiedAndPricedAreForGood | apps/server/src/repos/activity-pricing-repo.ts:181-198 | until purged, a verified row stays verified and a priced row priced, in the same bucket with the same volume |
| Totals.CountedOnTheSettlementDay | apps/server/src/repos/activity-time-anchor.ts:1-19 | a verified activity is counted on the day its client confirmed it, else on its block's day, under its own protocol and kind |
| Totals.PricedVolumeLandsInItsBucket | apps/server/src/repos/activity-pricing-repo.ts:200-211 | however old a claim, its bucket is its row's and was created by a verification |
| Ingestion.OnlyIngestTells | apps/server/src/repos/activities-ingest-repo.ts:43-77 | no step but ingest changes what a row was told |
| Ingestion.LiveRowsAreFolds | apps/server/src/repos/activities-ingest-repo.ts:201-228 | in every run each live row is the fold of the events ingested for it, and ingest wrote as many jobs for it as that fold enqueues |

## Left out

- Each SQL transaction is one atomic step; isolation levels, lock waits and rollbacks are not modelled, except that a hit row's `updated_at` is its transaction's start.
- Which rows another worker has locked while a batch is claimed is a parameter of the two batch methods.
- In `Protocol` an outcome may be applied to any activity at any time and a pricing write may come from any claim ever made; what workers really apply is added by `Provenance`, `PricingRuns` and `VerificationRuns`.
- A claimed job is handed out without its declared amounts and tokens.
- Names, consent, handshake challenges, signatures, HMACs, public ids, roles and attestations; HTTP status codes and validation of event shapes.
- The registry's entries are reduced to slug and tier; the text key of a provider's own chain number is a pair here.
- The token addresses of an activity and the listing's time window are parameters of `TokenListing`; symbols, agent counts and sparklines of listed tokens are left out.
- Columns that ingest copies without deciding on them: the second legs, executed amounts, fees, gas, sources, failure codes, observation times and the backfill flag.
- `bucketPrices` and the pass around it: which price a leg gets; a row whose pricing threw is put back or exhausted like any other, and both writes are in the model.
- Chain readers, price feeds and the token price cache are oracles: found, missing or failed; priced, not yet or never.
- `VerificationRuns` and `RateLimitRuns` take servers and database to read one clock.
- That the delays of a job sum to no more than its maximum age is proved for one verification worker; for several, the number of its retries is bounded.
- Times are whole milliseconds, also where the database keeps microseconds.
- Purging when due: `findAgentsDueForPurge` selects, and any agent may be purged in the model.
- Curves use exact reals: no IEEE rounding, no division by zero for equal x, no sparkline of width zero; `toFixed` and SVG text are left out, and `Math.hypot` is a parameter with its defining equation.
- Number::toString itself is not modelled: `PlainDecimalKeepsNumber` takes any text of the form ECMA-262 gives it. Number parsing of long intervals is exact here.
- Token decimals in `RawAmountTruncates` are non-negative integers of any size; observation times are numbers without NaN; toLowerCase is that of ASCII.
- Token cursors carry numbers rather than JSON in base64url; a cursor that was not handed out by the server is not followed. Collation is any strict total order shared by ORDER BY and `>`.
- Volumes in the database are reals: the numeric type's decimal text is not modelled there.
- `winRate`, coverage reports, divergence warnings, strike observations and queue depth are reports without invariants.
- SQL aggregation, percentiles, sparkline series queries, caches and the traffic simulator.
