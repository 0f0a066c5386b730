/** Each activity enters the published totals once: the daily aggregates against what a reader of every state of
    the run would have counted. */
module Totals {
  import opened Wrappers
  import opened Activities
  import opened Database
  import opened Protocol
  import opened Statements
  import Backoff
  import VerifyJob
  import R = Receipt

  /** One activity's contribution to a bucket. */
  datatype Fact = Fact(bucket: Bucket, volumeUsd: real)

  function VerifiedFact(row: Activity): Option<Fact> {
    if IsVerified(row) && AnchorMs(row).Some? then Some(Fact(AggregateBucket(row), VolumeContribution(row))) else None
  }

  function PricedFact(row: Activity): Option<Fact> {
    if row.pricing.ServerPriced? && AnchorMs(row).Some?
    then Some(Fact(AggregateBucket(row), PricedVolumeOf(row.eventRole, row.usdInPriced, row.usdOutPriced))) else None
  }

  function NewlyVerified(activities: map<nat, Activity>, seen: map<nat, Fact>): map<nat, Fact> {
    map id | id in activities && id !in seen && VerifiedFact(activities[id]).Some? :: VerifiedFact(activities[id]).value
  }

  function NewlyPriced(activities: map<nat, Activity>, seen: map<nat, Fact>): map<nat, Fact> {
    map id | id in activities && id !in seen && PricedFact(activities[id]).Some? :: PricedFact(activities[id]).value
  }

  /** The activities seen verified in some state of the run, as they were when first seen so; purged ones stay. */
  function SeenVerified(moments: seq<Moment>, quarantineStrikes: int): map<nat, Fact> {
    if moments == [] then map[]
    else
      var seen := SeenVerified(moments[..|moments| - 1], quarantineStrikes);
      seen + NewlyVerified(Run(moments, quarantineStrikes).db.activities, seen)
  }

  function SeenPriced(moments: seq<Moment>, quarantineStrikes: int): map<nat, Fact> {
    if moments == [] then map[]
    else
      var seen := SeenPriced(moments[..|moments| - 1], quarantineStrikes);
      seen + NewlyPriced(Run(moments, quarantineStrikes).db.activities, seen)
  }

  /** How many facts, of ids below `n`, lie in a bucket, and what they add up to. */
  function CountIn(facts: map<nat, Fact>, bucket: Bucket, n: nat): nat {
    if n == 0 then 0
    else CountIn(facts, bucket, n - 1) + if n - 1 in facts && facts[n - 1].bucket == bucket then 1 else 0
  }

  function VolumeIn(facts: map<nat, Fact>, bucket: Bucket, n: nat): real {
    if n == 0 then 0.0
    else
      VolumeIn(facts, bucket, n - 1)
      + if n - 1 in facts && facts[n - 1].bucket == bucket then facts[n - 1].volumeUsd else 0.0
  }

  lemma {:induction false} OneMoreFact(facts: map<nat, Fact>, id: nat, fact: Fact, bucket: Bucket, n: nat)
    requires id !in facts
    ensures CountIn(facts[id := fact], bucket, n)
            == CountIn(facts, bucket, n) + if id < n && fact.bucket == bucket then 1 else 0
    ensures VolumeIn(facts[id := fact], bucket, n)
            == VolumeIn(facts, bucket, n) + if id < n && fact.bucket == bucket then fact.volumeUsd else 0.0
  {
    if n > 0 {
      OneMoreFact(facts, id, fact, bucket, n - 1);
    }
  }

  lemma {:induction false} NoFactsAbove(facts: map<nat, Fact>, bucket: Bucket, n: nat, m: nat)
    requires n <= m && forall id | id in facts :: id < n
    ensures CountIn(facts, bucket, m) == CountIn(facts, bucket, n)
    ensures VolumeIn(facts, bucket, m) == VolumeIn(facts, bucket, n)
  {
    if n < m {
      NoFactsAbove(facts, bucket, n, m - 1);
    }
  }

  lemma {:induction false} FactIsCounted(facts: map<nat, Fact>, id: nat, n: nat)
    requires id in facts && id < n
    ensures CountIn(facts, facts[id].bucket, n) >= 1
  {
    if id < n - 1 {
      FactIsCounted(facts, id, n - 1);
    }
  }

  // The invariant

  function Lookup(facts: map<nat, Fact>, id: nat): Option<Fact> {
    if id in facts then Some(facts[id]) else None
  }

  ghost predicate RowFactsMatch(row: Activity, verified: Option<Fact>, priced: Option<Fact>) {
    && VerifiedFact(row) == verified && PricedFact(row) == priced
    && (row.pricing.ServerPriced? ==> IsVerified(row))
  }

  /** A live row is verified, or priced, exactly when it was once seen so, and still as it was then. */
  ghost predicate FactsMatch(activities: map<nat, Activity>, verified: map<nat, Fact>, priced: map<nat, Fact>) {
    forall id | id in activities :: RowFactsMatch(activities[id], Lookup(verified, id), Lookup(priced, id))
  }

  /** What was seen has a given-out id, and was seen verified before it was seen priced, in the same bucket. */
  ghost predicate PricedWasVerified(verified: map<nat, Fact>, priced: map<nat, Fact>, nextId: nat) {
    && (forall id | id in verified :: id < nextId)
    && (forall id | id in priced :: id in verified && priced[id].bucket == verified[id].bucket)
  }

  /** The aggregate row of a bucket, all zero when there is none. */
  function TotalOf(aggregates: map<Bucket, Aggregate>, bucket: Bucket): Aggregate {
    if bucket in aggregates then aggregates[bucket] else Aggregate(0.0, 0, 0.0)
  }

  ghost predicate BucketAddsUp(aggregates: map<Bucket, Aggregate>, verified: map<nat, Fact>, priced: map<nat, Fact>,
                               nextId: nat,
                               bucket: Bucket) {
    && TotalOf(aggregates, bucket)
       == Aggregate(VolumeIn(verified, bucket, nextId), CountIn(verified, bucket, nextId),
                    VolumeIn(priced, bucket, nextId))
    && (bucket in aggregates <==> CountIn(verified, bucket, nextId) > 0)
  }

  ghost predicate BucketsAddUp(aggregates: map<Bucket, Aggregate>, verified: map<nat, Fact>, priced: map<nat, Fact>,
                               nextId: nat) {
    forall bucket :: BucketAddsUp(aggregates, verified, priced, nextId, bucket)
  }

  /** A claim still says of its row what decides where its volume goes. */
  ghost predicate ClaimMatches(activities: map<nat, Activity>, nextId: nat, claim: PricingClaim) {
    && claim.id < nextId
    && (claim.id in activities ==>
          && VerifiedFact(activities[claim.id]).Some?
          && VerifiedFact(activities[claim.id]).value.bucket == claim.bucket
          && activities[claim.id].eventRole == claim.eventRole)
  }

  ghost predicate ClaimsMatch(activities: map<nat, Activity>, nextId: nat, claims: seq<PricingClaim>) {
    forall i | 0 <= i < |claims| :: ClaimMatches(activities, nextId, claims[i])
  }

  ghost predicate TotalsAreSound(db: Tables, claims: seq<PricingClaim>, verified: map<nat, Fact>,
                                 priced: map<nat, Fact>)
  {
    && FactsMatch(db.activities, verified, priced)
    && PricedWasVerified(verified, priced, db.nextId)
    && BucketsAddUp(db.aggregates, verified, priced, db.nextId)
    && ClaimsMatch(db.activities, db.nextId, claims)
  }

  /** The invariant after one more state has been looked at. */
  ghost predicate KeepsTotals(after: Tables, claims: seq<PricingClaim>, verified: map<nat, Fact>,
                              priced: map<nat, Fact>)
  {
    TotalsAreSound(after, claims, verified + NewlyVerified(after.activities, verified),
                   priced + NewlyPriced(after.activities, priced))
  }

  // The three ways a step can move the totals

  predicate SameFacts(row: Activity, row': Activity) {
    && VerifiedFact(row) == VerifiedFact(row') && PricedFact(row) == PricedFact(row') && row.eventRole == row'.eventRole
    && row.pricing.ServerPriced? == row'.pricing.ServerPriced? && IsVerified(row) == IsVerified(row')
  }

  /** Nothing becomes verified or priced, and the aggregates stay. */
  ghost predicate MovesNothing(before: Tables, after: Tables) {
    && after.aggregates == before.aggregates
    && after.nextId >= before.nextId
    && forall id | id in after.activities ::
         if id in before.activities then SameFacts(before.activities[id], after.activities[id])
         else id >= before.nextId && !IsVerified(after.activities[id]) && !after.activities[id].pricing.ServerPriced?
  }

  lemma NothingNew(activities: map<nat, Activity>, verified: map<nat, Fact>, priced: map<nat, Fact>)
    requires forall id | id in activities && id !in verified :: VerifiedFact(activities[id]).None?
    requires forall id | id in activities && id !in priced :: PricedFact(activities[id]).None?
    ensures verified + NewlyVerified(activities, verified) == verified
    ensures priced + NewlyPriced(activities, priced) == priced
  {
    assert NewlyVerified(activities, verified) == map[];
    assert NewlyPriced(activities, priced) == map[];
  }

  lemma NothingMovedKeepsTotals(before: Tables, after: Tables, claims: seq<PricingClaim>, verified: map<nat, Fact>,
                                priced: map<nat, Fact>)
    requires TotalsAreSound(before, claims, verified, priced) && MovesNothing(before, after)
    ensures KeepsTotals(after, claims, verified, priced)
  {
    NothingNew(after.activities, verified, priced);
    forall id | id in after.activities
      ensures RowFactsMatch(after.activities[id], Lookup(verified, id), Lookup(priced, id))
    {
      assert id in before.activities ==> RowFactsMatch(before.activities[id], Lookup(verified, id), Lookup(priced, id));
    }
    forall bucket
      ensures BucketAddsUp(after.aggregates, verified, priced, after.nextId, bucket)
    {
      assert BucketAddsUp(before.aggregates, verified, priced, before.nextId, bucket);
      NoFactsAbove(verified, bucket, before.nextId, after.nextId);
      NoFactsAbove(priced, bucket, before.nextId, after.nextId);
    }
    forall i | 0 <= i < |claims|
      ensures ClaimMatches(after.activities, after.nextId, claims[i])
    {
      assert ClaimMatches(before.activities, before.nextId, claims[i]);
    }
  }

  /** One row becomes verified and its bucket grows by it. */
  ghost predicate Verifies(before: Tables, after: Tables, id: nat, row: Activity) {
    && id in before.activities && after.activities == before.activities[id := row]
    && VerifiedFact(before.activities[id]).None? && VerifiedFact(row).Some?
    && PricedFact(row).Some? == PricedFact(before.activities[id]).Some?
    && after.nextId == before.nextId
    && after.aggregates
       == AddVerified(before.aggregates, VerifiedFact(row).value.bucket, VerifiedFact(row).value.volumeUsd)
  }

  lemma VerifiedBucketAddsUp(before: Tables, after: Tables, claims: seq<PricingClaim>, verified: map<nat, Fact>,
                             priced: map<nat, Fact>,
                             id: nat, row: Activity, bucket: Bucket)
    requires TotalsAreSound(before, claims, verified, priced) && Verifies(before, after, id, row) && id < before.nextId
    ensures id !in verified
    ensures BucketAddsUp(after.aggregates, verified[id := VerifiedFact(row).value], priced, after.nextId, bucket)
  {
    assert RowFactsMatch(before.activities[id], Lookup(verified, id), Lookup(priced, id));
    assert BucketAddsUp(before.aggregates, verified, priced, before.nextId, bucket);
    OneMoreFact(verified, id, VerifiedFact(row).value, bucket, before.nextId);
  }

  /** Rewriting a row that no claim names, or only what claims do not say, keeps every claim true. */
  lemma OneRowKeepsClaims(before: Tables, after: Tables, claims: seq<PricingClaim>, id: nat, row: Activity)
    requires ClaimsMatch(before.activities, before.nextId, claims)
    requires id in before.activities && after.activities == before.activities[id := row]
    requires after.nextId == before.nextId
    requires VerifiedFact(before.activities[id]).Some? ==>
               && VerifiedFact(row) == VerifiedFact(before.activities[id])
               && row.eventRole == before.activities[id].eventRole
    ensures ClaimsMatch(after.activities, after.nextId, claims)
  {
    forall i | 0 <= i < |claims|
      ensures ClaimMatches(after.activities, after.nextId, claims[i])
    {
      assert ClaimMatches(before.activities, before.nextId, claims[i]);
    }
  }

  lemma VerifyingKeepsTotals(before: Tables, after: Tables, claims: seq<PricingClaim>, verified: map<nat, Fact>,
                             priced: map<nat, Fact>,
                             id: nat, row: Activity)
    requires TotalsAreSound(before, claims, verified, priced) && Verifies(before, after, id, row) && id < before.nextId
    ensures KeepsTotals(after, claims, verified, priced)
  {
    var fact := VerifiedFact(row).value;
    var seen := verified[id := fact];
    SeesTheVerified(before, after, verified, priced, id, row);
    OneRowKeepsClaims(before, after, claims, id, row);
    forall bucket: Bucket
      ensures BucketAddsUp(after.aggregates, seen, priced, after.nextId, bucket)
    {
      VerifiedBucketAddsUp(before, after, claims, verified, priced, id, row, bucket);
    }
    assert BucketsAddUp(after.aggregates, seen, priced, after.nextId);
  }

  /** The other rows are as they were; the rewritten one matches what is now said of it. */
  lemma OneRowKeepsFacts(activities: map<nat, Activity>, verified: map<nat, Fact>, priced: map<nat, Fact>, id: nat,
                         row: Activity, seenVerified: map<nat, Fact>, seenPriced: map<nat, Fact>)
    requires FactsMatch(activities, verified, priced) && id in activities
    requires forall k: nat | k != id ::
               Lookup(seenVerified, k) == Lookup(verified, k) && Lookup(seenPriced, k) == Lookup(priced, k)
    requires RowFactsMatch(row, Lookup(seenVerified, id), Lookup(seenPriced, id))
    ensures FactsMatch(activities[id := row], seenVerified, seenPriced)
  {
    forall k | k in activities[id := row]
      ensures RowFactsMatch(activities[id := row][k], Lookup(seenVerified, k), Lookup(seenPriced, k))
    {
      assert k != id ==> RowFactsMatch(activities[k], Lookup(verified, k), Lookup(priced, k));
    }
  }

  lemma SeesTheVerified(before: Tables, after: Tables, verified: map<nat, Fact>, priced: map<nat, Fact>, id: nat,
                        row: Activity)
    requires FactsMatch(before.activities, verified, priced) && PricedWasVerified(verified, priced, before.nextId)
    requires Verifies(before, after, id, row) && id < before.nextId
    ensures verified + NewlyVerified(after.activities, verified) == verified[id := VerifiedFact(row).value]
    ensures priced + NewlyPriced(after.activities, priced) == priced
    ensures FactsMatch(after.activities, verified[id := VerifiedFact(row).value], priced)
    ensures PricedWasVerified(verified[id := VerifiedFact(row).value], priced, after.nextId)
  {
    var fact := VerifiedFact(row).value;
    assert RowFactsMatch(before.activities[id], Lookup(verified, id), Lookup(priced, id));
    assert id !in verified && id !in priced;
    OneRowKeepsFacts(before.activities, verified, priced, id, row, verified[id := fact], priced);
    forall k | k in after.activities && k != id
      ensures VerifiedFact(after.activities[k]) == Lookup(verified, k)
    {
      assert RowFactsMatch(before.activities[k], Lookup(verified, k), Lookup(priced, k));
    }
    NewFact(after.activities, verified, id, fact);
    SeenAlready(after.activities, verified[id := fact], priced);
  }

  lemma SeenAlready(activities: map<nat, Activity>, verified: map<nat, Fact>, priced: map<nat, Fact>)
    requires FactsMatch(activities, verified, priced)
    ensures verified + NewlyVerified(activities, verified) == verified
    ensures priced + NewlyPriced(activities, priced) == priced
  {
    forall id | id in activities
      ensures VerifiedFact(activities[id]) == Lookup(verified, id) && PricedFact(activities[id]) == Lookup(priced, id)
    {
      assert RowFactsMatch(activities[id], Lookup(verified, id), Lookup(priced, id));
    }
    NothingNew(activities, verified, priced);
  }

  lemma NewFact(activities: map<nat, Activity>, verified: map<nat, Fact>, id: nat, fact: Fact)
    requires id in activities && id !in verified && VerifiedFact(activities[id]) == Some(fact)
    requires forall k | k in activities && k != id :: VerifiedFact(activities[k]) == Lookup(verified, k)
    ensures verified + NewlyVerified(activities, verified) == verified[id := fact]
  {
    assert NewlyVerified(activities, verified) == map[id := fact];
  }

  lemma NewPrice(activities: map<nat, Activity>, priced: map<nat, Fact>, id: nat, fact: Fact)
    requires id in activities && id !in priced && PricedFact(activities[id]) == Some(fact)
    requires forall k | k in activities && k != id :: PricedFact(activities[k]) == Lookup(priced, k)
    ensures priced + NewlyPriced(activities, priced) == priced[id := fact]
  {
    assert NewlyPriced(activities, priced) == map[id := fact];
  }

  /** One verified row becomes priced and the priced volume of its bucket grows by it. */
  ghost predicate Prices(before: Tables, after: Tables, id: nat, row: Activity) {
    && id in before.activities && after.activities == before.activities[id := row]
    && VerifiedFact(row).Some? && VerifiedFact(row) == VerifiedFact(before.activities[id])
    && row.eventRole == before.activities[id].eventRole
    && PricedFact(before.activities[id]).None? && PricedFact(row).Some?
    && PricedFact(row).value.bucket == VerifiedFact(row).value.bucket
    && after.nextId == before.nextId
    && after.aggregates
       == AddPricedVolume(before.aggregates, PricedFact(row).value.bucket, PricedFact(row).value.volumeUsd)
  }

  lemma PricedBucketAddsUp(before: Tables, after: Tables, claims: seq<PricingClaim>, verified: map<nat, Fact>,
                           priced: map<nat, Fact>,
                           id: nat, row: Activity, bucket: Bucket)
    requires TotalsAreSound(before, claims, verified, priced) && Prices(before, after, id, row) && id < before.nextId
    ensures id !in priced
    ensures BucketAddsUp(after.aggregates, verified, priced[id := PricedFact(row).value], after.nextId, bucket)
  {
    assert RowFactsMatch(before.activities[id], Lookup(verified, id), Lookup(priced, id));
    assert BucketAddsUp(before.aggregates, verified, priced, before.nextId, bucket);
    OneMoreFact(priced, id, PricedFact(row).value, bucket, before.nextId);
    FactIsCounted(verified, id, before.nextId);
  }

  lemma SeesThePriced(before: Tables, after: Tables, verified: map<nat, Fact>, priced: map<nat, Fact>, id: nat,
                      row: Activity)
    requires FactsMatch(before.activities, verified, priced) && PricedWasVerified(verified, priced, before.nextId)
    requires Prices(before, after, id, row) && id < before.nextId
    ensures priced + NewlyPriced(after.activities, priced) == priced[id := PricedFact(row).value]
    ensures verified + NewlyVerified(after.activities, verified) == verified
    ensures FactsMatch(after.activities, verified, priced[id := PricedFact(row).value])
    ensures PricedWasVerified(verified, priced[id := PricedFact(row).value], after.nextId)
  {
    var fact := PricedFact(row).value;
    assert RowFactsMatch(before.activities[id], Lookup(verified, id), Lookup(priced, id)) && id !in priced;
    OneRowKeepsFacts(before.activities, verified, priced, id, row, verified, priced[id := fact]);
    forall k | k in after.activities && k != id
      ensures PricedFact(after.activities[k]) == Lookup(priced, k)
    {
      assert RowFactsMatch(before.activities[k], Lookup(verified, k), Lookup(priced, k));
    }
    NewPrice(after.activities, priced, id, fact);
    SeenAlready(after.activities, verified, priced[id := fact]);
  }

  lemma PricingKeepsTotals(before: Tables, after: Tables, claims: seq<PricingClaim>, verified: map<nat, Fact>,
                           priced: map<nat, Fact>,
                           id: nat, row: Activity)
    requires TotalsAreSound(before, claims, verified, priced) && Prices(before, after, id, row) && id < before.nextId
    ensures KeepsTotals(after, claims, verified, priced)
  {
    var fact := PricedFact(row).value;
    var seen := priced[id := fact];
    SeesThePriced(before, after, verified, priced, id, row);
    OneRowKeepsClaims(before, after, claims, id, row);
    forall bucket: Bucket
      ensures BucketAddsUp(after.aggregates, verified, seen, after.nextId, bucket)
    {
      PricedBucketAddsUp(before, after, claims, verified, priced, id, row, bucket);
    }
    assert BucketsAddUp(after.aggregates, verified, seen, after.nextId);
  }

  // Every step

  lemma EventKeepsFacts(row: Option<Activity>, agent: string, event: IngestEvent)
    ensures row.None? ==>
              !IsVerified(RowAfterEvent(row, agent, event)) && !RowAfterEvent(row, agent, event).pricing.ServerPriced?
    ensures row.Some? && RowIsSound(row.value) && (row.value.pricing.ServerPriced? ==> IsVerified(row.value)) ==>
              SameFacts(row.value, RowAfterEvent(row, agent, event))
  {
  }

  lemma EventKeepsTotals(db: Tables, agent: string, event: IngestEvent, nowMs: int, claims: seq<PricingClaim>,
                         verified: map<nat, Fact>, priced: map<nat, Fact>)
    requires QueueIsSound(db) && TotalsAreSound(db, claims, verified, priced)
    ensures KeepsTotals(ApplyEvent(db, agent, event, nowMs), claims, verified, priced)
  {
    var existing := ExistingRow(db, agent, event.sourceRow);
    if existing.Some? {
      var id := existing.value;
      assert RowFactsMatch(db.activities[id], Lookup(verified, id), Lookup(priced, id));
      EventKeepsFacts(Some(db.activities[id]), agent, event);
    } else {
      EventKeepsFacts(None, agent, event);
    }
    NothingMovedKeepsTotals(db, ApplyEvent(db, agent, event, nowMs), claims, verified, priced);
  }

  /** A row is rewritten in nothing that counts. */
  lemma OneRowKeepsTotals(before: Tables, after: Tables, claims: seq<PricingClaim>, verified: map<nat, Fact>,
                          priced: map<nat, Fact>,
                          id: nat, row: Activity)
    requires TotalsAreSound(before, claims, verified, priced)
    requires id in before.activities && after.activities == before.activities[id := row]
    requires SameFacts(before.activities[id], row)
    requires after.aggregates == before.aggregates && after.nextId == before.nextId
    ensures KeepsTotals(after, claims, verified, priced)
  {
    NothingMovedKeepsTotals(before, after, claims, verified, priced);
  }

  lemma SuccessKeepsTotals(db: Tables, id: nat, verdict: R.TerminalVerdict, quarantineStrikes: int, nowMs: int,
                           claims: seq<PricingClaim>, verified: map<nat, Fact>, priced: map<nat, Fact>)
    requires QueueIsSound(db) && TotalsAreSound(db, claims, verified, priced)
    requires id in db.activities && db.activities[id].verification.Queued? && !verdict.Strike?
    ensures KeepsTotals(FinalizeVerification(db, id, verdict, quarantineStrikes, nowMs), claims, verified, priced)
  {
    hide KeepsTotals, BucketsAddUp, ClaimsMatch, PricedWasVerified, IndexMatches, JobsMatch;
    var row := FinalizedActivity(db.activities[id], verdict, nowMs);
    var after := FinalizeVerification(db, id, verdict, quarantineStrikes, nowMs);
    assert RowFactsMatch(db.activities[id], Lookup(verified, id), Lookup(priced, id));
    assert after.activities == db.activities[id := row];
    assert after.aggregates == AddVerified(db.aggregates, AggregateBucket(row), VolumeContribution(row));
    VerifyingKeepsTotals(db, after, claims, verified, priced, id, row);
  }

  lemma StrikeMovesOneRow(db: Tables, id: nat, reason: R.StrikeReason, quarantineStrikes: int, nowMs: int)
    requires id in db.activities && db.activities[id].verification.Queued?
    ensures var after := FinalizeVerification(db, id, R.Strike(reason), quarantineStrikes, nowMs);
            && after.activities == db.activities[id := FinalizedActivity(db.activities[id], R.Strike(reason), nowMs)]
            && after.aggregates == db.aggregates && after.nextId == db.nextId
  {
    hide IndependentShapes, StruckAgent, AnchorMs;
  }

  lemma StrikeKeepsTotals(db: Tables, id: nat, reason: R.StrikeReason, quarantineStrikes: int, nowMs: int,
                          claims: seq<PricingClaim>, verified: map<nat, Fact>, priced: map<nat, Fact>)
    requires QueueIsSound(db) && TotalsAreSound(db, claims, verified, priced)
    requires id in db.activities && db.activities[id].verification.Queued?
    ensures KeepsTotals(FinalizeVerification(db, id, R.Strike(reason), quarantineStrikes, nowMs), claims, verified,
                        priced)
  {
    hide KeepsTotals, QueueIsSound, BucketsAddUp, ClaimsMatch, PricedWasVerified, FinalizeVerification;
    var row := FinalizedActivity(db.activities[id], R.Strike(reason), nowMs);
    assert RowFactsMatch(db.activities[id], Lookup(verified, id), Lookup(priced, id));
    StrikeMovesOneRow(db, id, reason, quarantineStrikes, nowMs);
    OneRowKeepsTotals(db, FinalizeVerification(db, id, R.Strike(reason), quarantineStrikes, nowMs), claims, verified,
                      priced, id, row);
  }

  lemma QuietOutcomeKeepsTotals(db: Tables, id: nat, outcome: VerifyJob.JobOutcome, quarantineStrikes: int, nowMs: int,
                                claims: seq<PricingClaim>, verified: map<nat, Fact>, priced: map<nat, Fact>)
    requires TotalsAreSound(db, claims, verified, priced)
    requires outcome.Reschedule? || id !in db.activities || !db.activities[id].verification.Queued?
    ensures KeepsTotals(ApplyJobOutcome(db, id, outcome, quarantineStrikes, nowMs), claims, verified, priced)
  {
    hide KeepsTotals, TotalsAreSound, RecordStrike, RecordVerifiedSuccess;
    NothingMovedKeepsTotals(db, ApplyJobOutcome(db, id, outcome, quarantineStrikes, nowMs), claims, verified, priced);
  }

  lemma CloseKeepsTotals(db: Tables, id: nat, claims: seq<PricingClaim>, verified: map<nat, Fact>,
                         priced: map<nat, Fact>)
    requires TotalsAreSound(db, claims, verified, priced)
    requires id in db.activities && db.activities[id].verification.Queued?
    ensures KeepsTotals(CloseUnverifiable(db, id), claims, verified, priced)
  {
    hide KeepsTotals, BucketsAddUp, ClaimsMatch, PricedWasVerified;
    assert RowFactsMatch(db.activities[id], Lookup(verified, id), Lookup(priced, id));
    OneRowKeepsTotals(db, CloseUnverifiable(db, id), claims, verified, priced, id,
                      db.activities[id].(verification := NotQueued));
  }

  lemma OutcomeKeepsTotals(db: Tables, id: nat, outcome: VerifyJob.JobOutcome, quarantineStrikes: int, nowMs: int,
                           claims: seq<PricingClaim>, verified: map<nat, Fact>, priced: map<nat, Fact>)
    requires QueueIsSound(db) && TotalsAreSound(db, claims, verified, priced)
    ensures KeepsTotals(ApplyJobOutcome(db, id, outcome, quarantineStrikes, nowMs), claims, verified, priced)
  {
    hide KeepsTotals, QueueIsSound, TotalsAreSound, FinalizeVerification, CloseUnverifiable;
    if outcome.Reschedule? || id !in db.activities || !db.activities[id].verification.Queued? {
      QuietOutcomeKeepsTotals(db, id, outcome, quarantineStrikes, nowMs, claims, verified, priced);
    } else if outcome.CloseUnverifiable? {
      CloseKeepsTotals(db, id, claims, verified, priced);
    } else if outcome.verdict.Strike? {
      StrikeKeepsTotals(db, id, outcome.verdict.reason, quarantineStrikes, nowMs, claims, verified, priced);
    } else {
      SuccessKeepsTotals(db, id, outcome.verdict, quarantineStrikes, nowMs, claims, verified, priced);
    }
  }

  lemma OperatorsKeepTotals(db: Tables, after: Tables, id: nat, quarantineStrikes: int, nowMs: int,
                            claims: seq<PricingClaim>, verified: map<nat, Fact>, priced: map<nat, Fact>)
    requires TotalsAreSound(db, claims, verified, priced)
    requires after == RetryVerification(db, id, nowMs) || after == ReopenVerification(db, id, quarantineStrikes, nowMs)
    ensures KeepsTotals(after, claims, verified, priced)
  {
    if after == db {
      NothingMovedKeepsTotals(db, after, claims, verified, priced);
    } else {
      assert RowFactsMatch(db.activities[id], Lookup(verified, id), Lookup(priced, id));
      OneRowKeepsTotals(db, after, claims, verified, priced, id, db.activities[id].(verification := Queued));
    }
  }

  lemma ClaimPricingKeepsTotals(db: Tables, id: nat, leaseMs: nat, nowMs: int,
                                claims: seq<PricingClaim>, verified: map<nat, Fact>, priced: map<nat, Fact>)
    requires QueueIsSound(db) && TotalsAreSound(db, claims, verified, priced)
    ensures KeepsTotals(ClaimPricing(db, id, leaseMs, nowMs), claims, verified, priced)
    ensures CanClaimPricing(db, id, nowMs) ==>
              ClaimMatches(ClaimPricing(db, id, leaseMs, nowMs).activities, db.nextId,
                           PricingClaimOf(id, db.activities[id]))
  {
    if CanClaimPricing(db, id, nowMs) {
      OneRowKeepsTotals(db, ClaimPricing(db, id, leaseMs, nowMs), claims, verified, priced, id,
                        db.activities[id].(pricingDueMs := Some(nowMs + leaseMs)));
    } else {
      NothingMovedKeepsTotals(db, db, claims, verified, priced);
    }
  }

  lemma PublishKeepsTotals(db: Tables, claim: PricingClaim, usdIn: Option<real>, usdOut: Option<real>, nowMs: int,
                           claims: seq<PricingClaim>, verified: map<nat, Fact>, priced: map<nat, Fact>)
    requires TotalsAreSound(db, claims, verified, priced) && ClaimMatches(db.activities, db.nextId, claim)
    requires claim.id in db.activities && db.activities[claim.id].pricing.PricingPending?
    ensures KeepsTotals(ApplyPricing(db, claim, Publish(usdIn, usdOut), nowMs), claims, verified, priced)
  {
    var row := PricedActivity(db.activities[claim.id], Publish(usdIn, usdOut), nowMs);
    assert RowFactsMatch(db.activities[claim.id], Lookup(verified, claim.id), Lookup(priced, claim.id));
    PricingKeepsTotals(db, ApplyPricing(db, claim, Publish(usdIn, usdOut), nowMs), claims, verified, priced, claim.id,
                       row);
  }

  lemma ApplyPricingKeepsTotals(db: Tables, claim: PricingClaim, write: PricingWrite, nowMs: int,
                                claims: seq<PricingClaim>, verified: map<nat, Fact>, priced: map<nat, Fact>)
    requires TotalsAreSound(db, claims, verified, priced) && ClaimMatches(db.activities, db.nextId, claim)
    ensures KeepsTotals(ApplyPricing(db, claim, write, nowMs), claims, verified, priced)
  {
    hide KeepsTotals, TotalsAreSound, ClaimMatches;
    if claim.id !in db.activities || !db.activities[claim.id].pricing.PricingPending? {
      NothingMovedKeepsTotals(db, db, claims, verified, priced);
    } else if write.Publish? {
      PublishKeepsTotals(db, claim, write.usdIn, write.usdOut, nowMs, claims, verified, priced);
    } else {
      OneRowKeepsTotals(db, ApplyPricing(db, claim, write, nowMs), claims, verified, priced, claim.id,
                        PricedActivity(db.activities[claim.id], write, nowMs));
    }
  }

  /** Steps that touch no activity. */
  lemma OtherStepsKeepTotals(s: System, m: Moment, quarantineStrikes: int, verified: map<nat, Fact>,
                             priced: map<nat, Fact>)
    requires TotalsAreSound(s.db, s.claims, verified, priced)
    requires m.step.Registers? || m.step.Binds? || m.step.Revokes? || m.step.Lifts? || m.step.ClaimsJob?
    ensures KeepsTotals(TablesAfter(s, m, quarantineStrikes), s.claims, verified, priced)
  {
    hide TotalsAreSound, KeepsTotals, WalletsClaimed, CanClaimJob;
    assert TablesAfter(s, m, quarantineStrikes).activities == s.db.activities;
    NothingMovedKeepsTotals(s.db, TablesAfter(s, m, quarantineStrikes), s.claims, verified, priced);
  }

  /** The two steps that touch many activities and count none. */
  lemma SweepsKeepTotals(db: Tables, chainId: Option<int>, agent: string, nowMs: int, claims: seq<PricingClaim>,
                         verified: map<nat, Fact>, priced: map<nat, Fact>)
    requires TotalsAreSound(db, claims, verified, priced)
    ensures KeepsTotals(RequeueUnpriced(db, chainId, nowMs), claims, verified, priced)
    ensures KeepsTotals(PurgeAgent(db, agent, nowMs), claims, verified, priced)
  {
    hide TotalsAreSound, KeepsTotals;
    NothingMovedKeepsTotals(db, RequeueUnpriced(db, chainId, nowMs), claims, verified, priced);
    NothingMovedKeepsTotals(db, PurgeAgent(db, agent, nowMs), claims, verified, priced);
  }

  lemma EachClaimMatches(db: Tables, claims: seq<PricingClaim>, i: nat, verified: map<nat, Fact>,
                         priced: map<nat, Fact>)
    requires TotalsAreSound(db, claims, verified, priced) && i < |claims|
    ensures ClaimMatches(db.activities, db.nextId, claims[i])
  {
  }

  lemma NothingMoved(db: Tables)
    ensures MovesNothing(db, db)
  {
  }

  lemma NextKeepsTotals(s: System, m: Moment, quarantineStrikes: int, verified: map<nat, Fact>, priced: map<nat, Fact>)
    requires QueueIsSound(s.db) && TotalsAreSound(s.db, s.claims, verified, priced)
    ensures KeepsTotals(TablesAfter(s, m, quarantineStrikes), s.claims, verified, priced)
  {
    hide TotalsAreSound, KeepsTotals, QueueIsSound, MovesNothing, ClaimMatches, ApplyEvent, ApplyJobOutcome,
      RetryVerification, ReopenVerification, ClaimPricing, ApplyPricing, RequeueUnpriced, PurgeAgent;
    match m.step
    case Ingests(agent, event) => EventKeepsTotals(s.db, agent, event, m.nowMs, s.claims, verified, priced);
    case AppliesJobOutcome(id, outcome) => OutcomeKeepsTotals(s.db, id, outcome, quarantineStrikes, m.nowMs,
                                                              s.claims, verified, priced);
    case Retries(id) =>
      OperatorsKeepTotals(s.db, RetryVerification(s.db, id, m.nowMs), id, quarantineStrikes, m.nowMs, s.claims,
                          verified, priced);
    case Reopens(id) =>
      OperatorsKeepTotals(s.db, ReopenVerification(s.db, id, quarantineStrikes, m.nowMs), id, quarantineStrikes,
                          m.nowMs, s.claims, verified, priced);
    case ClaimsPricing(id, leaseMs) => ClaimPricingKeepsTotals(s.db, id, leaseMs, m.nowMs, s.claims, verified, priced);
    case AppliesPricing(claim, write) =>
      if claim < |s.claims| {
        EachClaimMatches(s.db, s.claims, claim, verified, priced);
        ApplyPricingKeepsTotals(s.db, s.claims[claim], write, m.nowMs, s.claims, verified, priced);
      } else {
        NothingMoved(s.db);
        NothingMovedKeepsTotals(s.db, s.db, s.claims, verified, priced);
      }
    case Requeues(chainId) => SweepsKeepTotals(s.db, chainId, "", m.nowMs, s.claims, verified, priced);
    case Purges(agent) => SweepsKeepTotals(s.db, None, agent, m.nowMs, s.claims, verified, priced);
    case _ => OtherStepsKeepTotals(s, m, quarantineStrikes, verified, priced);
  }

  lemma OneMoreClaim(db: Tables, claims: seq<PricingClaim>, claim: PricingClaim, verified: map<nat, Fact>,
                     priced: map<nat, Fact>)
    requires TotalsAreSound(db, claims, verified, priced) && ClaimMatches(db.activities, db.nextId, claim)
    ensures TotalsAreSound(db, claims + [claim], verified, priced)
  {
  }

  lemma NextKeepsClaims(s: System, m: Moment, quarantineStrikes: int, verified: map<nat, Fact>, priced: map<nat, Fact>)
    requires QueueIsSound(s.db) && TotalsAreSound(s.db, s.claims, verified, priced)
    requires KeepsTotals(TablesAfter(s, m, quarantineStrikes), s.claims, verified, priced)
    ensures KeepsTotals(TablesAfter(s, m, quarantineStrikes), ClaimsAfter(s, m), verified, priced)
  {
    hide TotalsAreSound, QueueIsSound, ClaimMatches;
    if m.step.ClaimsPricing? && CanClaimPricing(s.db, m.step.id, m.nowMs) {
      var after := TablesAfter(s, m, quarantineStrikes);
      ClaimPricingKeepsTotals(s.db, m.step.id, m.step.leaseMs, m.nowMs, s.claims, verified, priced);
      OneMoreClaim(after, s.claims, PricingClaimOf(m.step.id, s.db.activities[m.step.id]),
                   verified + NewlyVerified(after.activities, verified),
                   priced + NewlyPriced(after.activities, priced));
    }
  }

  lemma {:induction false} TotalsHold(moments: seq<Moment>, quarantineStrikes: int)
    ensures var s := Run(moments, quarantineStrikes);
            TotalsAreSound(s.db, s.claims, SeenVerified(moments, quarantineStrikes),
                           SeenPriced(moments, quarantineStrikes))
  {
    if moments == [] {
    } else {
      var earlier, m := moments[..|moments| - 1], moments[|moments| - 1];
      var s, verified, priced := Run(earlier, quarantineStrikes), SeenVerified(earlier, quarantineStrikes),
          SeenPriced(earlier, quarantineStrikes);
      TotalsHold(earlier, quarantineStrikes);
      QueueStaysConsistent(earlier, quarantineStrikes);
      NextKeepsTotals(s, m, quarantineStrikes, verified, priced);
      NextKeepsClaims(s, m, quarantineStrikes, verified, priced);
    }
  }

  /** What a live row counts for: with its protocol and kind, on the day of its settlement, by its role, the client's
      estimate once it is verified and the prices written on it once it is priced. */
  ghost predicate CountsAsItReads(row: Activity, id: nat, verified: map<nat, Fact>, priced: map<nat, Fact>) {
    var settledAtMs := if row.clientConfirmedAtMs.Some? then row.clientConfirmedAtMs else row.blockTimeMs;
    var anchorMs := if settledAtMs.Some? then settledAtMs else row.verifiedAtMs;
    && (id in verified <==> row.verification in {VerifiedFull, VerifiedBasic})
    && (id in priced <==> row.pricing == ServerPriced)
    && (id in verified ==>
          && anchorMs.Some?
          && verified[id].bucket == Bucket(anchorMs.value / 86_400_000, row.protocol, row.kind)
          && IsEstimatedVolume(verified[id].volumeUsd, row.eventRole, row.usdInEst))
    && (id in priced ==> IsPricedVolume(priced[id].volumeUsd, row.eventRole, row.usdInPriced, row.usdOutPriced))
  }

  lemma RowCountsAsItReads(row: Activity, id: nat, verified: map<nat, Fact>, priced: map<nat, Fact>)
    requires RowIsSound(row) && RowFactsMatch(row, Lookup(verified, id), Lookup(priced, id))
    ensures CountsAsItReads(row, id, verified, priced)
  {
  }

  lemma RowsCountAsTheyRead(db: Tables, verified: map<nat, Fact>, priced: map<nat, Fact>)
    requires QueueIsSound(db) && FactsMatch(db.activities, verified, priced)
    ensures forall id | id in db.activities :: CountsAsItReads(db.activities[id], id, verified, priced)
  {
    hide RowIsSound, RowFactsMatch, CountsAsItReads, IndexMatches, JobsMatch;
    forall id | id in db.activities
      ensures CountsAsItReads(db.activities[id], id, verified, priced)
    {
      RowCountsAsItReads(db.activities[id], id, verified, priced);
    }
  }

  /** In every run, for every bucket: the transaction count is the number of activities ever verified there, the
      estimated volume the sum of what they contributed, the priced volume the sum of what was ever priced there,
      and the bucket exists exactly when some activity was verified in it. */
  lemma EachActivityCountsOnce(moments: seq<Moment>, quarantineStrikes: int, bucket: Bucket)
    ensures var db := Run(moments, quarantineStrikes).db;
            var verified, priced := SeenVerified(moments, quarantineStrikes), SeenPriced(moments, quarantineStrikes);
            && TotalOf(db.aggregates, bucket)
               == Aggregate(VolumeIn(verified, bucket, db.nextId), CountIn(verified, bucket, db.nextId),
                            VolumeIn(priced, bucket, db.nextId))
            && (bucket in db.aggregates <==> CountIn(verified, bucket, db.nextId) > 0)
            && (forall id | id in verified :: id < db.nextId)
            && (forall id | id in priced :: id in verified && priced[id].bucket == verified[id].bucket)
            && (forall id | id in db.activities :: CountsAsItReads(db.activities[id], id, verified, priced))
  {
    hide Run, CountsAsItReads, QueueIsSound, FactsMatch, ClaimsMatch, RowFactsMatch, AggregateBucket;
    TotalsHold(moments, quarantineStrikes);
    QueueStaysConsistent(moments, quarantineStrikes);
    RowsCountAsTheyRead(Run(moments, quarantineStrikes).db, SeenVerified(moments, quarantineStrikes),
                        SeenPriced(moments, quarantineStrikes));
    assert BucketAddsUp(Run(moments, quarantineStrikes).db.aggregates, SeenVerified(moments, quarantineStrikes),
                        SeenPriced(moments, quarantineStrikes), Run(moments, quarantineStrikes).db.nextId, bucket);
  }

  /** Verified and priced are for good: an activity once seen so is so, with the same bucket and volume, in every
      later state in which it has not been purged. */
  lemma VerifiedAndPricedAreForGood(moments: seq<Moment>, later: seq<Moment>, quarantineStrikes: int, id: nat)
    requires id in Run(moments, quarantineStrikes).db.activities
        && id in Run(moments + later, quarantineStrikes).db.activities
    ensures var row := Run(moments, quarantineStrikes).db.activities[id];
            var row' := Run(moments + later, quarantineStrikes).db.activities[id];
            && (IsVerified(row) ==> IsVerified(row') && VerifiedFact(row') == VerifiedFact(row))
            && (row.pricing.ServerPriced? ==> row'.pricing.ServerPriced? && PricedFact(row') == PricedFact(row))
  {
    hide BucketsAddUp, ClaimsMatch, IndexMatches, JobsMatch, Run, SeenVerified, SeenPriced;
    TotalsHold(moments, quarantineStrikes);
    TotalsHold(moments + later, quarantineStrikes);
    QueueStaysConsistent(moments, quarantineStrikes);
    SeenStays(moments, later, quarantineStrikes, id);
    var row, row' := Run(moments, quarantineStrikes).db.activities[id],
        Run(moments + later, quarantineStrikes).db.activities[id];
    assert RowFactsMatch(row, Lookup(SeenVerified(moments, quarantineStrikes), id),
                         Lookup(SeenPriced(moments, quarantineStrikes), id));
    assert RowFactsMatch(row', Lookup(SeenVerified(moments + later, quarantineStrikes), id),
                         Lookup(SeenPriced(moments + later, quarantineStrikes), id));
  }

  lemma {:induction false} SeenStays(moments: seq<Moment>, later: seq<Moment>, quarantineStrikes: int, id: nat)
    ensures var seen := SeenVerified(moments, quarantineStrikes);
            var seen' := SeenVerified(moments + later, quarantineStrikes);
            id in seen ==> id in seen' && seen'[id] == seen[id]
    ensures var seen, seen' := SeenPriced(moments, quarantineStrikes), SeenPriced(moments + later, quarantineStrikes);
            id in seen ==> id in seen' && seen'[id] == seen[id]
  {
    if later == [] {
      assert moments + later == moments;
    } else {
      var n := |later| - 1;
      SeenStays(moments, later[..n], quarantineStrikes, id);
      assert (moments + later)[..|moments + later| - 1] == moments + later[..n];
    }
  }

  /** However old the claim, a price that is still written lands in the bucket its activity was verified into,
      which is there: the statement's insert half never fires. */
  lemma PricedVolumeLandsInItsBucket(moments: seq<Moment>, quarantineStrikes: int, claim: nat)
    requires claim < |Run(moments, quarantineStrikes).claims|
    ensures var s := Run(moments, quarantineStrikes);
            var c := s.claims[claim];
            c.id in s.db.activities ==>
              && IsVerified(s.db.activities[c.id]) && AnchorMs(s.db.activities[c.id]).Some?
              && c.bucket == AggregateBucket(s.db.activities[c.id])
              && c.eventRole == s.db.activities[c.id].eventRole
              && c.bucket in s.db.aggregates && s.db.aggregates[c.bucket].txCount >= 1
  {
    TotalsHold(moments, quarantineStrikes);
    var s, verified := Run(moments, quarantineStrikes), SeenVerified(moments, quarantineStrikes);
    var c := s.claims[claim];
    assert ClaimMatches(s.db.activities, s.db.nextId, c);
    if c.id in s.db.activities {
      assert RowFactsMatch(s.db.activities[c.id], Lookup(verified, c.id),
                           Lookup(SeenPriced(moments, quarantineStrikes), c.id));
      FactIsCounted(verified, c.id, s.db.nextId);
      EachActivityCountsOnce(moments, quarantineStrikes, c.bucket);
    }
  }

  /** A verified activity is counted on the UTC day its client says it was confirmed, else on the day of the block
      its receipt was found in: never on the day the server happened to look. */
  lemma CountedOnTheSettlementDay(db: Tables, id: nat, verdict: R.TerminalVerdict, quarantineStrikes: int, nowMs: int)
    requires id in db.activities && db.activities[id].verification.Queued? && !verdict.Strike?
    ensures var row := FinalizeVerification(db, id, verdict, quarantineStrikes, nowMs).activities[id];
            && AnchorMs(row) == Some(db.activities[id].clientConfirmedAtMs.GetOr(verdict.blockTimestampMs))
            && VerifiedFact(row).Some?
            && var bucket := VerifiedFact(row).value.bucket;
               && bucket.day * Backoff.DAY_MS <= AnchorMs(row).value < (bucket.day + 1) * Backoff.DAY_MS
               && bucket.protocol == db.activities[id].protocol && bucket.kind == db.activities[id].kind
  {
    hide AddVerified;
    var row := FinalizedActivity(db.activities[id], verdict, nowMs);
    assert FinalizeVerification(db, id, verdict, quarantineStrikes, nowMs).activities == db.activities[id := row];
  }
}
