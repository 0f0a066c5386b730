/** What the statements do to the rows they touch, in the fields of those rows
    (apps/server/src/repos, apps/server/src/worker, apps/server/src/cli). */
module Statements {
  import opened Wrappers
  import opened Activities
  import opened Database
  import Chains
  import PricingDecision
  import VerifyJob
  import R = Receipt
  import RowSteps

  // The published totals

  /** What a role adds of a price: the spent side's, else the received side's, when it deploys capital. */
  ghost predicate IsPricedVolume(volumeUsd: real, eventRole: string, usdIn: Option<real>, usdOut: Option<real>) {
    if eventRole == "swap" || eventRole == "bridge_deposit" || eventRole == "lend_deposit" || eventRole == "predict_buy"
    then
      && (usdIn.Some? ==> volumeUsd == usdIn.value)
      && (usdIn.None? && usdOut.Some? ==> volumeUsd == usdOut.value)
      && (usdIn.None? && usdOut.None? ==> volumeUsd == 0.0)
    else volumeUsd == 0.0
  }

  ghost predicate IsEstimatedVolume(volumeUsd: real, eventRole: string, usdInEst: Option<real>) {
    if eventRole == "swap" || eventRole == "bridge_deposit" || eventRole == "lend_deposit" || eventRole == "predict_buy"
    then volumeUsd == if usdInEst.Some? then usdInEst.value else 0.0
    else volumeUsd == 0.0
  }

  /** The figures of a bucket, which are zero until it exists. */
  function FiguresOf(aggregates: map<Bucket, Aggregate>, bucket: Bucket): Aggregate {
    if bucket in aggregates then aggregates[bucket] else Aggregate(0.0, 0, 0.0)
  }

  ghost predicate OnlyThisBucket(before: map<Bucket, Aggregate>, after: map<Bucket, Aggregate>, bucket: Bucket) {
    && bucket in after
    && forall other | other != bucket ::
         && (other in after <==> other in before)
         && (other in before ==> after[other] == before[other])
  }

  /** Publishing a price on a pending row keeps both prices on it, and adds to its bucket what the claim's role adds. */
  lemma PublishingAddsThePrice(db: Tables, claim: PricingClaim, usdIn: Option<real>, usdOut: Option<real>, nowMs: int)
    requires claim.id in db.activities && db.activities[claim.id].pricing.PricingPending?
    ensures var after := ApplyPricing(db, claim, Publish(usdIn, usdOut), nowMs);
            var was, now := FiguresOf(db.aggregates, claim.bucket), FiguresOf(after.aggregates, claim.bucket);
            && IsPricedVolume(now.volumeUsdPriced - was.volumeUsdPriced, claim.eventRole, usdIn, usdOut)
            && now.volumeUsd == was.volumeUsd && now.txCount == was.txCount
            && OnlyThisBucket(db.aggregates, after.aggregates, claim.bucket)
            && claim.id in after.activities
            && var row := after.activities[claim.id];
               && row.pricing.ServerPriced? && row.pricingDueMs.None?
               && row.usdInPriced == usdIn && row.usdOutPriced == usdOut
  {
  }

  /** Nothing else a pricing pass writes touches a total. */
  lemma OnlyPublishingAdds(db: Tables, claim: PricingClaim, write: PricingWrite, nowMs: int)
    requires !write.Publish? || claim.id !in db.activities || !db.activities[claim.id].pricing.PricingPending?
    ensures ApplyPricing(db, claim, write, nowMs).aggregates == db.aggregates
  {
  }

  /** A verified activity adds one, and what its role adds of the client's estimate, to the bucket of its protocol, its
      kind and the day it settled. */
  lemma SuccessAddsTheEstimate(db: Tables, id: nat, verdict: R.TerminalVerdict, quarantineStrikes: int, nowMs: int)
    requires id in db.activities && db.activities[id].verification.Queued? && !verdict.Strike?
    ensures var row := db.activities[id];
            var settledMs :=
              if row.clientConfirmedAtMs.Some? then row.clientConfirmedAtMs.value else verdict.blockTimestampMs;
            var bucket := Bucket(settledMs / 86_400_000, row.protocol, row.kind);
            var after := FinalizeVerification(db, id, verdict, quarantineStrikes, nowMs);
            var was, now := FiguresOf(db.aggregates, bucket), FiguresOf(after.aggregates, bucket);
            && now.txCount == was.txCount + 1 && now.volumeUsdPriced == was.volumeUsdPriced
            && IsEstimatedVolume(now.volumeUsd - was.volumeUsd, row.eventRole, row.usdInEst)
            && OnlyThisBucket(db.aggregates, after.aggregates, bucket)
            && after.strikes == db.strikes
  {
    hide StampedAgent;
  }

  // Verdicts

  /** A verdict is kept with the time it was given and, for a success, the block's. */
  lemma VerdictIsKept(db: Tables, id: nat, verdict: R.TerminalVerdict, quarantineStrikes: int, nowMs: int)
    requires id in db.activities && db.activities[id].verification.Queued?
    ensures var after := FinalizeVerification(db, id, verdict, quarantineStrikes, nowMs);
            && id in after.activities && id !in after.jobs
            && var row := after.activities[id];
               && row.verifiedAtMs == Some(nowMs)
               && (row.verification.VerifiedFull? <==> verdict.VerifiedFull?)
               && (row.verification.VerifiedBasic? <==> verdict.VerifiedBasic?)
               && (row.verification.Mismatch? <==> verdict.Strike?)
               && row.blockTimeMs == (if verdict.Strike? then None else Some(verdict.blockTimestampMs))
               && row.(verification := Queued, verifiedAtMs := db.activities[id].verifiedAtMs,
                       blockTimeMs := db.activities[id].blockTimeMs) == db.activities[id]
  {
    hide FinalizeVerification;
    RowSteps.FinalizeOnRows(db, id, verdict, quarantineStrikes, nowMs);
  }

  /** The first success of an agent is stamped, and later ones leave it. */
  lemma FirstSuccessIsStamped(db: Tables, id: nat, verdict: R.TerminalVerdict, quarantineStrikes: int, nowMs: int)
    requires id in db.activities && db.activities[id].verification.Queued? && !verdict.Strike?
    requires db.activities[id].agent in db.agents
    ensures var agent := db.activities[id].agent;
            var was, now := db.agents, FinalizeVerification(db, id, verdict, quarantineStrikes, nowMs).agents;
            && now.Keys == was.Keys && (forall other | other in was && other != agent :: now[other] == was[other])
            && (was[agent].firstVerifiedMs.Some? ==> now[agent].firstVerifiedMs == was[agent].firstVerifiedMs)
            && (was[agent].firstVerifiedMs.None? ==> now[agent].firstVerifiedMs == Some(nowMs))
            && now[agent].(firstVerifiedMs := None) == was[agent].(firstVerifiedMs := None)
  {
    hide AddVerified, AggregateBucket, VolumeContribution;
  }

  /** A failed verdict is a strike row and a count, but for the launch of a token; no total moves. */
  lemma StrikeIsRecorded(db: Tables, id: nat, reason: R.StrikeReason, quarantineStrikes: int, nowMs: int)
    requires id in db.activities && db.activities[id].verification.Queued?
    ensures var row := db.activities[id];
            var after := FinalizeVerification(db, id, R.Strike(reason), quarantineStrikes, nowMs);
            && after.aggregates == db.aggregates
            && (row.kind.Launch? && row.eventRole == "token_launch" ==>
                  after.strikes == db.strikes && after.agents == db.agents)
            && (!(row.kind.Launch? && row.eventRole == "token_launch") ==>
                  && after.strikes == db.strikes + [StrikeRow(row.agent, Some(id), Verdict(reason))]
                  && (row.agent in db.agents ==>
                        && row.agent in after.agents
                        && after.agents[row.agent].strikeCount == db.agents[row.agent].strikeCount + 1
                        && (after.agents[row.agent].quarantinedMs != db.agents[row.agent].quarantinedMs ==>
                              && db.agents[row.agent].quarantinedMs.None?
                              && after.agents[row.agent].quarantinedMs == Some(nowMs)
                              && after.agents[row.agent].status.Quarantined?)))
  {
    hide IndependentShapes;
  }

  /** Two strikes have one shape exactly when they agree in cause, protocol, kind, role and chain. */
  lemma SameShapeExactlyWhen(s: StrikeRow, a: Activity, t: StrikeRow, b: Activity)
    ensures ShapeOf(s, a) == ShapeOf(t, b) <==>
              && s.cause == t.cause && a.protocol == b.protocol && a.kind == b.kind && a.eventRole == b.eventRole
              && a.chainFamily == b.chainFamily && a.chainId == b.chainId
  {
  }

  // Agents

  ghost predicate OthersStay(before: map<string, Agent>, after: map<string, Agent>, agent: string) {
    forall other | other != agent ::
      && (other in after <==> other in before)
      && (other in before ==> after[other] == before[other])
  }

  /** Registering inserts an unknown agent, brings a known one with the same token back, and refuses another token. */
  lemma RegisteringMeaning(db: Tables, agent: string, token: string)
    ensures var after := Register(db, agent, token).agents;
            && agent in after && OthersStay(db.agents, after, agent)
            && (agent !in db.agents ==> after[agent] == Agent(token, Active, 0, None, None, None, None))
            && (agent in db.agents && db.agents[agent].token != token ==> after[agent] == db.agents[agent])
            && (agent in db.agents && db.agents[agent].token == token ==>
                  && after[agent].status.Active? && after[agent].revokedMs.None?
                  && after[agent].(status := db.agents[agent].status, revokedMs := db.agents[agent].revokedMs)
                     == db.agents[agent])
  {
  }

  /** Revoking stamps an agent once. */
  lemma RevokingMeaning(db: Tables, agent: string, nowMs: int, laterMs: int)
    requires agent in db.agents
    ensures var after := Revoke(db, agent, nowMs);
            && after.agents[agent].status.Revoked? && OthersStay(db.agents, after.agents, agent)
            && after.agents[agent].revokedMs
               == (if db.agents[agent].status.Revoked? then db.agents[agent].revokedMs else Some(nowMs))
            && after.agents[agent].(status := db.agents[agent].status, revokedMs := db.agents[agent].revokedMs)
               == db.agents[agent]
            && Revoke(after, agent, laterMs) == after
  {
  }

  /** A handshake gives a known agent a token and nothing else, makes an unknown one active, and hands it every wallet
      it proved; of the other wallets none moves. */
  lemma BindingMeaning(db: Tables, agent: string, token: string, proven: seq<Wallet>)
    ensures var after := BindHandshake(db, agent, token, proven);
            && agent in after.agents && OthersStay(db.agents, after.agents, agent)
            && after.agents[agent]
               == (if agent in db.agents then db.agents[agent].(token := token)
                   else Agent(token, Active, 0, None, None, None, None))
            && (forall wallet | wallet in proven :: wallet in after.wallets && after.wallets[wallet] == agent)
            && (forall wallet | wallet !in proven ::
                  && (wallet in after.wallets <==> wallet in db.wallets)
                  && (wallet in db.wallets ==> after.wallets[wallet] == db.wallets[wallet]))
  {
    WalletsAreClaimed(db.wallets, proven, agent);
  }

  lemma {:induction false} WalletsAreClaimed(wallets: map<Wallet, string>, proven: seq<Wallet>, agent: string)
    ensures var after := WalletsClaimed(wallets, proven, agent);
            && (forall wallet | wallet in proven :: wallet in after && after[wallet] == agent)
            && (forall wallet | wallet !in proven ::
                  && (wallet in after <==> wallet in wallets)
                  && (wallet in wallets ==> after[wallet] == wallets[wallet]))
  {
    if proven != [] {
      WalletsAreClaimed(wallets, proven[..|proven| - 1], agent);
      assert proven == proven[..|proven| - 1] + [proven[|proven| - 1]];
    }
  }

  /** A reopen that ends a quarantine takes its stamp away, and so does a lift, which forgets the count as well. */
  lemma QuarantineEndsWithItsStamp(db: Tables, id: nat, agent: string, quarantineStrikes: int, nowMs: int)
    requires agent in db.agents && db.agents[agent].status.Quarantined?
    ensures LiftQuarantine(db, agent).agents[agent]
            == db.agents[agent].(status := Active, strikeCount := 0, quarantinedMs := None)
    ensures LiftQuarantine(db, agent).strikes == db.strikes + [StrikeRow(agent, None, OperatorLift)]
    ensures CanReopen(db, id) && db.activities[id].agent == agent ==>
              var after := ReopenVerification(db, id, quarantineStrikes, nowMs).agents;
              && agent in after
              && (after[agent].status.Active? ==> after[agent].quarantinedMs.None?)
              && (!after[agent].status.Active? ==>
                    after[agent].status.Quarantined? && after[agent].quarantinedMs == db.agents[agent].quarantinedMs)
  {
    hide WithoutActivity;
  }

  // Claims

  /** A job may be claimed when it is due and its activity still claims an inclusion. */
  lemma JobIsClaimableExactlyWhen(db: Tables, id: nat, nowMs: int)
    ensures CanClaimJob(db, id, nowMs) <==>
              && id in db.jobs && db.jobs[id].nextAttemptMs <= nowMs && id in db.activities
              && db.activities[id].status in {Pending, Confirmed, DefinitivelyFailed}
  {
  }

  /** A row may be claimed for pricing when it is verified, waits to be priced, is due and has a time to be priced
      at. */
  lemma PricingIsClaimableExactlyWhen(db: Tables, id: nat, nowMs: int)
    ensures CanClaimPricing(db, id, nowMs) <==>
              && id in db.activities && db.activities[id].pricing.PricingPending?
              && db.activities[id].verification in {VerifiedFull, VerifiedBasic}
              && (db.activities[id].pricingDueMs.Some? ==> db.activities[id].pricingDueMs.value <= nowMs)
              && (|| db.activities[id].clientConfirmedAtMs.Some? || db.activities[id].blockTimeMs.Some?
                  || db.activities[id].verifiedAtMs.Some?)
  {
  }

  /** What a worker is handed of a job it claims. */
  lemma JobClaimMeaning(db: Tables, ids: seq<nat>, nowMs: int, claim: JobClaim)
    requires claim in JobClaims(db, ids, nowMs)
    ensures claim.id in ids && CanClaimJob(db, claim.id, nowMs)
    ensures var job, row := db.jobs[claim.id], db.activities[claim.id];
            && claim.attempts == job.attempts && claim.firstAttemptMs == job.firstAttemptMs
            && claim.txHash == row.txHash && claim.protocol == row.protocol && claim.kind == row.kind
            && claim.chainFamily == row.chainFamily && claim.chainId == row.chainId
            && claim.clientConfirmedAtMs == row.clientConfirmedAtMs
  {
    if claim !in JobClaims(db, ids[..|ids| - 1], nowMs) {
      assert claim.id == ids[|ids| - 1];
    } else {
      JobClaimMeaning(db, ids[..|ids| - 1], nowMs, claim);
    }
  }

  /** What a pass reads of a row it claims: the settlement is the client's, else the block's; the bucket falls back on
      the day of the verdict. */
  lemma PricingClaimMeaning(db: Tables, ids: seq<nat>, nowMs: int, claim: PricingClaim)
    requires claim in PricingClaims(db, ids, nowMs)
    ensures claim.id in ids && CanClaimPricing(db, claim.id, nowMs)
    ensures var row := db.activities[claim.id];
            var settledAtMs := if row.clientConfirmedAtMs.Some? then row.clientConfirmedAtMs else row.blockTimeMs;
            var anchorMs := if settledAtMs.Some? then settledAtMs else row.verifiedAtMs;
            && claim.eventRole == row.eventRole && claim.attempts == row.pricingAttempts
            && claim.settledAtMs == settledAtMs && anchorMs.Some?
            && claim.bucket == Bucket(anchorMs.value / 86_400_000, row.protocol, row.kind)
  {
    if claim !in PricingClaims(db, ids[..|ids| - 1], nowMs) {
      assert claim.id == ids[|ids| - 1];
    } else {
      PricingClaimMeaning(db, ids[..|ids| - 1], nowMs, claim);
    }
  }

  /** A batch may take what is due and held by nobody else. */
  lemma DueMeaning(db: Tables, locked: set<nat>, nowMs: int, id: nat)
    ensures id in DueJobs(db, locked, nowMs) <==> id in db.jobs && id !in locked && db.jobs[id].nextAttemptMs <= nowMs
    ensures id in DuePricings(db, locked, nowMs) <==> CanClaimPricing(db, id, nowMs) && id !in locked
    ensures id in db.jobs ==> DueTimes(db)[id] == db.jobs[id].nextAttemptMs
    ensures id in db.activities ==> OwnIds(db)[id] == id
  {
  }

  // Operators

  lemma RetryableExactlyWhen(db: Tables, id: nat)
    ensures CanRetry(db, id) <==>
              && id in db.activities && db.activities[id].verification == NotQueued
              && db.activities[id].status == Confirmed && db.activities[id].txHash.Some?
    ensures CanReopen(db, id) <==>
              && id in db.activities && db.activities[id].verification == Mismatch
              && db.activities[id].status == Confirmed && db.activities[id].txHash.Some?
  {
  }

  /** A requeue makes every unpriced row in scope pending and due at once, with no attempts, and changes no other. */
  lemma RequeueMeaning(db: Tables, chainId: Option<int>, nowMs: int, id: nat)
    requires id in db.activities
    ensures var row, after := db.activities[id], RequeueUnpriced(db, chainId, nowMs).activities;
            && id in after
            && (row.pricing == Unpriced && (chainId == None || chainId == Some(row.chainId)) ==>
                  after[id] == row.(pricing := PricingPending, pricingAttempts := 0, pricingDueMs := Some(nowMs)))
            && (row.pricing != Unpriced || (chainId != None && chainId != Some(row.chainId)) ==> after[id] == row)
  {
  }

  // Pricing outcomes

  /** What each outcome of a pass leaves of a row that waits to be priced. */
  lemma OutcomeIsWritten(db: Tables, claim: PricingClaim, outcome: PricingDecision.PricingOutcome,
                         numeric: string -> real, nowMs: int)
    requires claim.id in db.activities && db.activities[claim.id].pricing.PricingPending?
    ensures var row := db.activities[claim.id];
            var after := ApplyPricing(db, claim, WriteOf(outcome, numeric), nowMs).activities;
            && claim.id in after
            && var now := after[claim.id];
               match outcome
               case PricedAt(usdIn, usdOut) =>
                 && now.pricing.ServerPriced? && now.pricingAttempts == row.pricingAttempts
                 && (usdIn.Some? <==> now.usdInPriced.Some?) && (usdOut.Some? <==> now.usdOutPriced.Some?)
                 && (usdIn.Some? ==> now.usdInPriced.value == numeric(usdIn.value))
                 && (usdOut.Some? ==> now.usdOutPriced.value == numeric(usdOut.value))
               case Reschedule(delayMs) =>
                 now == row.(pricingAttempts := row.pricingAttempts + 1, pricingDueMs := Some(nowMs + delayMs))
               case AttemptsExhausted =>
                 now == row.(pricing := Unpriced, pricingAttempts := row.pricingAttempts + 1, pricingDueMs := None)
               case _ => now == row.(pricing := Unpriced, pricingDueMs := None)
  {
    hide AddPricedVolume, PricedVolumeOf;
  }
}
