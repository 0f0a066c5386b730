/** The repositories' transactions, statement by statement, over tables that change in place. */
module Store {
  import opened Wrappers
  import opened Activities
  import D = Database
  import VerifyJob
  import PricingDecision
  import R = Receipt

  /** A key of the least value. */
  method Least(ranks: map<nat, int>) returns (least: nat)
    requires ranks != map[]
    ensures least in ranks && forall id | id in ranks :: ranks[least] <= ranks[id]
  {
    var rest := ranks.Keys;
    least :| least in rest;
    rest := rest - {least};
    while rest != {}
      invariant least in ranks && rest <= ranks.Keys
      invariant forall id | id in ranks && id !in rest :: ranks[least] <= ranks[id]
      decreases |rest|
    {
      var id :| id in rest;
      if ranks[id] < ranks[least] {
        least := id;
      }
      rest := rest - {id};
    }
  }

  predicate ClaimablePricing(row: Activity, nowMs: int) {
    && row.pricing.PricingPending? && D.IsVerified(row) && D.AnchorMs(row).Some?
    && (row.pricingDueMs.None? || row.pricingDueMs.value <= nowMs)
  }

  /** `picked` so far, in order of rank, and `due` still to choose from. */
  ghost predicate Picks(picked: seq<nat>, due: set<nat>, all: set<nat>, rank: map<nat, int>) {
    && all <= rank.Keys && D.Distinct(picked)
    && (forall id: nat :: id in all <==> id in due || id in picked)
    && (forall id | id in picked :: id !in due)
    && (forall i, j | 0 <= i < j < |picked| :: rank[picked[i]] <= rank[picked[j]])
    && (forall id, other | id in picked && other in due :: rank[id] <= rank[other])
  }

  lemma NothingPicked(all: set<nat>, rank: map<nat, int>)
    requires all <= rank.Keys
    ensures Picks([], all, all, rank)
  {
  }

  lemma PickOne(picked: seq<nat>, due: set<nat>, all: set<nat>, rank: map<nat, int>, id: nat)
    requires Picks(picked, due, all, rank) && id in due && due <= rank.Keys
    requires forall other | other in due :: rank[id] <= rank[other]
    ensures Picks(picked + [id], due - {id}, all, rank)
  {
    assert forall i | 0 <= i < |picked| :: picked[i] in picked;
  }

  lemma PicksAreFirst(picked: seq<nat>, due: set<nat>, all: set<nat>, rank: map<nat, int>, limit: nat)
    requires Picks(picked, due, all, rank) && |picked| <= limit && (|picked| == limit || due == {})
    ensures all <= rank.Keys && D.FirstBy(picked, all, rank, limit)
  {
  }

  class Repository {
    var activities: map<nat, Activity>
    var bySource: map<(string, string), nat>
    var nextId: nat
    var jobs: map<nat, D.Job>
    var strikes: seq<D.StrikeRow>
    var agents: map<string, D.Agent>
    var aggregates: map<D.Bucket, D.Aggregate>
    var wallets: map<D.Wallet, string>

    ghost function Contents(): D.Tables
      reads this
    {
      D.Tables(activities, bySource, nextId, jobs, strikes, agents, aggregates, wallets)
    }

    constructor ()
      ensures Contents() == D.EMPTY
    {
      activities, bySource, nextId, jobs, strikes, agents := map[], map[], 0, map[], [], map[];
      aggregates, wallets := map[], map[];
    }

    // Agents

    method UpsertAgentRegistration(agent: string, token: string) returns (registered: bool)
      modifies this
      ensures Contents() == D.Register(old(Contents()), agent, token)
      ensures registered <==> agent in agents && agents[agent].token == token
    {
      if agent !in agents {
        agents := agents[agent := D.Agent(token, D.Active, 0, None, None, None, None)];
      } else if agents[agent].token == token {
        agents := agents[agent := agents[agent].(status := D.Active, revokedMs := None)];
      }
      registered := agents[agent].token == token;
    }

    method RevokeAgent(agent: string, nowMs: int)
      modifies this
      ensures Contents() == D.Revoke(old(Contents()), agent, nowMs)
    {
      if agent in agents && !agents[agent].status.Revoked? {
        agents := agents[agent := agents[agent].(status := D.Revoked, revokedMs := Some(nowMs))];
      }
    }

    /** An UPDATE when the wallet is known and an INSERT when it is not: either way it is this agent's now. */
    method ClaimWallet(agent: string, wallet: D.Wallet)
      modifies this`wallets
      ensures wallets == old(wallets)[wallet := agent]
    {
      wallets := wallets[wallet := agent];
    }

    method CompleteHandshakeBinding(agent: string, token: string, proven: seq<D.Wallet>)
      modifies this
      ensures Contents() == D.BindHandshake(old(Contents()), agent, token, proven)
    {
      ghost var was := wallets;
      if agent in agents {
        agents := agents[agent := agents[agent].(token := token)];
      } else {
        agents := agents[agent := D.Agent(token, D.Active, 0, None, None, None, None)];
      }
      for i := 0 to |proven|
        invariant wallets == D.WalletsClaimed(was, proven[..i], agent)
        invariant activities == old(activities) && bySource == old(bySource) && nextId == old(nextId)
        invariant jobs == old(jobs)
        invariant strikes == old(strikes) && aggregates == old(aggregates)
        invariant agents == D.BindHandshake(old(Contents()), agent, token, proven).agents
      {
        assert proven[..i + 1][..i] == proven[..i];
        ClaimWallet(agent, proven[i]);
      }
      assert proven[..|proven|] == proven;
    }

    // Ingest

    method EnqueueWhenQueued(id: nat, state: VerificationState, nowMs: int)
      modifies this`jobs
      ensures jobs == if state.Queued? then D.Enqueued(old(jobs), id, nowMs) else old(jobs)
    {
      if !state.Queued? {
        return;
      }
      if id !in jobs {
        jobs := jobs[id := D.Job(0, nowMs, nowMs)];
      }
    }

    method InsertActivity(agent: string, event: IngestEvent, nowMs: int)
      requires agent in agents && D.ExistingRow(Contents(), agent, event.sourceRow).None?
      modifies this
      ensures Contents() == D.ApplyEvent(old(Contents()), agent, event, nowMs)
    {
      var id := nextId;
      activities := activities[id := InsertedActivity(agent, event)];
      bySource := bySource[(agent, event.sourceRow) := id];
      nextId := nextId + 1;
      EnqueueWhenQueued(id, activities[id].verification, nowMs);
    }

    method PromotePendingActivity(id: nat, event: IngestEvent, nowMs: int) returns (promoted: bool)
      requires id in activities
      modifies this`activities, this`jobs
      ensures promoted == old(activities[id].status.Pending?)
      ensures activities == if promoted then old(activities)[id := PromotedActivity(old(activities[id]), event)]
                            else old(activities)
      ensures jobs == if promoted && activities[id].verification.Queued? then D.Enqueued(old(jobs), id, nowMs)
                      else old(jobs)
    {
      promoted := activities[id].status.Pending?;
      if !promoted {
        return;
      }
      activities := activities[id := PromotedActivity(activities[id], event)];
      EnqueueWhenQueued(id, activities[id].verification, nowMs);
    }

    /** Accepts an event or reports a duplicate; an agent the foreign key does not know is refused. */
    method ApplyEvent(agent: string, event: IngestEvent, nowMs: int) returns (accepted: bool)
      modifies this
      ensures Contents() == D.ApplyEvent(old(Contents()), agent, event, nowMs)
      ensures accepted <==>
                && agent in old(agents)
                && (D.ExistingRow(old(Contents()), agent, event.sourceRow).Some? ==>
                      event.status !in old(activities[bySource[(agent, event.sourceRow)]].statusesSeen))
    {
      if agent !in agents {
        return false;
      }
      if (agent, event.sourceRow) !in bySource || bySource[(agent, event.sourceRow)] !in activities {
        InsertActivity(agent, event, nowMs);
        return true;
      }
      var id := bySource[(agent, event.sourceRow)];
      match DecideIngest(Some(activities[id]), event.status) {
        case Duplicate =>
          assert activities == activities[id := activities[id]];
          accepted := false;
        case Promote =>
          accepted := PromotePendingActivity(id, event, nowMs);
        case AcceptNoop =>
          activities := activities[id := WithStatusSeen(activities[id], event)];
          accepted := true;
      }
    }

    // Verification

    method ClaimDueJob(id: nat, leaseMs: nat, nowMs: int) returns (claimed: bool)
      modifies this
      ensures Contents() == D.ClaimJob(old(Contents()), id, leaseMs, nowMs)
      ensures claimed <==> D.CanClaimJob(old(Contents()), id, nowMs)
    {
      claimed := id in jobs && jobs[id].nextAttemptMs <= nowMs && id in activities
          && !activities[id].status.SupersededUnproven?;
      if claimed {
        jobs := jobs[id := jobs[id].(nextAttemptMs := nowMs + leaseMs)];
      }
    }

    /** SELECT ... ORDER BY next_attempt_at LIMIT limit FOR UPDATE SKIP LOCKED, and the lease on what it finds. */
    method ClaimDueJobs(limit: nat, leaseMs: nat, nowMs: int, locked: set<nat>)
      returns (claims: seq<D.JobClaim>, ghost picked: seq<nat>)
      modifies this
      ensures D.FirstBy(picked, D.DueJobs(old(Contents()), locked, nowMs), D.DueTimes(old(Contents())), limit)
      ensures Contents() == D.ClaimJobs(old(Contents()), picked, leaseMs, nowMs)
      ensures claims == D.JobClaims(old(Contents()), picked, nowMs)
    {
      hide Picks, D.FirstBy;
      ghost var before := Contents();
      ghost var times, all := D.DueTimes(before), D.DueJobs(before, locked, nowMs);
      var due := map id | id in jobs && id !in locked && jobs[id].nextAttemptMs <= nowMs :: jobs[id].nextAttemptMs;
      claims, picked := [], [];
      var taken := 0;
      assert due.Keys == all;
      NothingPicked(all, times);
      while taken < limit && due != map[]
        invariant taken == |picked| <= limit
        invariant forall id | id in due ::
                    id in before.jobs && due[id] == times[id] && id in jobs && jobs[id] == before.jobs[id]
        invariant Picks(picked, due.Keys, all, times)
        invariant Contents() == D.ClaimJobs(before, picked, leaseMs, nowMs) && activities == before.activities
        invariant claims == D.JobClaims(before, picked, nowMs)
        decreases limit - taken
      {
        var id := Least(due);
        PickOne(picked, due.Keys, all, times, id);
        assert (picked + [id])[..|picked|] == picked;
        picked := picked + [id];
        var job := jobs[id];
        var claimed := ClaimDueJob(id, leaseMs, nowMs);
        if claimed {
          claims := claims + [D.JobClaimOf(id, job, activities[id])];
        }
        due := due - {id};
        taken := taken + 1;
      }
      PicksAreFirst(picked, due.Keys, all, times, limit);
    }

    method DeleteJob(id: nat)
      modifies this`jobs
      ensures jobs == old(jobs) - {id}
    {
      jobs := jobs - {id};
    }

    method RecordVerifiedSuccess(row: Activity, nowMs: int)
      requires D.AnchorMs(row).Some?
      modifies this
      ensures Contents() == D.RecordVerifiedSuccess(old(Contents()), row, nowMs)
    {
      if row.agent in agents {
        var first := Coalesce(agents[row.agent].firstVerifiedMs, Some(nowMs));
        agents := agents[row.agent := agents[row.agent].(firstVerifiedMs := first)];
      }
      var bucket := D.AggregateBucket(row);
      if bucket in aggregates {
        var was := aggregates[bucket];
        aggregates := aggregates[bucket := was.(volumeUsd := was.volumeUsd + D.VolumeContribution(row),
                                                txCount := was.txCount + 1)];
      } else {
        aggregates := aggregates[bucket := D.Aggregate(D.VolumeContribution(row), 1, 0.0)];
      }
    }

    method RecordStrike(id: nat, agent: string, reason: R.StrikeReason, quarantineStrikes: int, nowMs: int)
      modifies this
      ensures Contents() == D.RecordStrike(old(Contents()), id, agent, reason, quarantineStrikes, nowMs)
    {
      hide D.IndependentShapes;
      strikes := strikes + [D.StrikeRow(agent, Some(id), D.Verdict(reason))];
      if agent !in agents {
        return;
      }
      agents := agents[agent := agents[agent].(strikeCount := agents[agent].strikeCount + 1)];
      var independent := |D.IndependentShapes(strikes, activities, agent)|;
      if independent < quarantineStrikes {
        return;
      }
      agents := agents[agent := agents[agent].(status := D.Quarantined,
                                               quarantinedMs := Coalesce(agents[agent].quarantinedMs, Some(nowMs)))];
    }

    method FinalizeVerification(id: nat, verdict: R.TerminalVerdict, quarantineStrikes: int, nowMs: int)
      modifies this
      ensures Contents() == D.FinalizeVerification(old(Contents()), id, verdict, quarantineStrikes, nowMs)
    {
      if id !in activities || !activities[id].verification.Queued? {
        return;
      }
      var row := D.FinalizedActivity(activities[id], verdict, nowMs);
      activities := activities[id := row];
      if verdict.Strike? && !D.IsLaunchShaped(row) {
        RecordStrike(id, row.agent, verdict.reason, quarantineStrikes, nowMs);
      } else if !verdict.Strike? {
        RecordVerifiedSuccess(row, nowMs);
      }
      DeleteJob(id);
    }

    method CloseUnverifiable(id: nat)
      modifies this
      ensures Contents() == D.CloseUnverifiable(old(Contents()), id)
    {
      if id in activities && activities[id].verification.Queued? {
        activities := activities[id := activities[id].(verification := NotQueued)];
      }
      DeleteJob(id);
    }

    method RescheduleJob(id: nat, delayMs: int, nowMs: int)
      modifies this
      ensures Contents() == D.RescheduleJob(old(Contents()), id, delayMs, nowMs)
    {
      if id in jobs {
        jobs := jobs[id := jobs[id].(attempts := jobs[id].attempts + 1, nextAttemptMs := nowMs + delayMs)];
      }
    }

    method ApplyJobOutcome(id: nat, outcome: VerifyJob.JobOutcome, quarantineStrikes: int, nowMs: int)
      modifies this
      ensures Contents() == D.ApplyJobOutcome(old(Contents()), id, outcome, quarantineStrikes, nowMs)
    {
      match outcome {
        case Reschedule(delayMs, _) => RescheduleJob(id, delayMs, nowMs);
        case CloseUnverifiable(_) => CloseUnverifiable(id);
        case Finalize(verdict) => FinalizeVerification(id, verdict, quarantineStrikes, nowMs);
      }
    }

    // Operators

    method RetryVerification(id: nat, nowMs: int) returns (requeued: bool)
      modifies this
      ensures Contents() == D.RetryVerification(old(Contents()), id, nowMs)
      ensures requeued == D.CanRetry(old(Contents()), id)
    {
      requeued := id in activities && activities[id].verification.NotQueued? && activities[id].status.Confirmed?
          && activities[id].txHash.Some?;
      if !requeued {
        return;
      }
      activities := activities[id := activities[id].(verification := Queued)];
      jobs := jobs[id := D.Job(0, nowMs, nowMs)];
    }

    method RestoreAgentStanding(agent: string, withdrawn: nat, quarantineStrikes: int) returns (lifted: bool)
      modifies this`agents
      ensures agents == if agent !in old(agents) then old(agents)
                        else old(agents)[agent := D.RestoredAgent(old(agents)[agent], withdrawn, quarantineStrikes).0]
      ensures lifted <==> agent in old(agents) && D.RestoredAgent(old(agents)[agent], withdrawn, quarantineStrikes).1
    {
      if withdrawn == 0 || agent !in agents {
        assert agent in agents ==> agents == agents[agent := agents[agent]];
        return false;
      }
      agents := agents[agent := agents[agent].(strikeCount := D.Less(agents[agent].strikeCount, withdrawn))];
      if !agents[agent].status.Quarantined? || agents[agent].strikeCount >= quarantineStrikes {
        return false;
      }
      agents := agents[agent := agents[agent].(status := D.Active, quarantinedMs := None)];
      return true;
    }

    method ReopenVerification(id: nat, quarantineStrikes: int, nowMs: int)
      returns (reopened: bool, strikesWithdrawn: nat, quarantineLifted: bool)
      modifies this
      ensures Contents() == D.ReopenVerification(old(Contents()), id, quarantineStrikes, nowMs)
      ensures reopened == D.CanReopen(old(Contents()), id)
      ensures reopened ==> strikesWithdrawn == D.StrikesWithdrawn(old(Contents()), id)
      ensures quarantineLifted ==>
                reopened && activities[id].agent in agents && agents[activities[id].agent].status.Active?
    {
      reopened := id in activities && activities[id].verification.Mismatch? && activities[id].status.Confirmed?
          && activities[id].txHash.Some?;
      strikesWithdrawn, quarantineLifted := 0, false;
      if !reopened {
        return;
      }
      activities := activities[id := activities[id].(verification := Queued)];
      jobs := jobs[id := D.Job(0, nowMs, nowMs)];
      D.WithoutActivityShrinks(strikes, id);
      var kept := D.WithoutActivity(strikes, id);
      strikesWithdrawn := |strikes| - |kept|;
      strikes := kept;
      quarantineLifted := RestoreAgentStanding(activities[id].agent, strikesWithdrawn, quarantineStrikes);
      strikes := strikes + [D.StrikeRow(activities[id].agent, None, D.OperatorReopen)];
    }

    method LiftQuarantine(agent: string) returns (lifted: bool)
      modifies this
      ensures Contents() == D.LiftQuarantine(old(Contents()), agent)
      ensures lifted <==> agent in old(agents) && old(agents)[agent].status.Quarantined?
    {
      lifted := agent in agents && agents[agent].status.Quarantined?;
      if !lifted {
        return;
      }
      agents := agents[agent := agents[agent].(status := D.Active, strikeCount := 0, quarantinedMs := None)];
      strikes := strikes + [D.StrikeRow(agent, None, D.OperatorLift)];
    }

    // Pricing

    method ClaimDuePricingRow(id: nat, leaseMs: nat, nowMs: int) returns (claim: Option<D.PricingClaim>)
      modifies this
      ensures Contents() == D.ClaimPricing(old(Contents()), id, leaseMs, nowMs)
      ensures claim == if D.CanClaimPricing(old(Contents()), id, nowMs)
                       then Some(D.PricingClaimOf(id, old(activities)[id])) else None
    {
      if id !in activities || !activities[id].pricing.PricingPending? || !D.IsVerified(activities[id])
         || D.AnchorMs(activities[id]).None?
         || (activities[id].pricingDueMs.Some? && activities[id].pricingDueMs.value > nowMs) {
        return None;
      }
      claim := Some(D.PricingClaimOf(id, activities[id]));
      activities := activities[id := activities[id].(pricingDueMs := Some(nowMs + leaseMs))];
    }

    /** SELECT ... ORDER BY id LIMIT limit FOR UPDATE SKIP LOCKED, and the lease on what it finds. */
    method ClaimDuePricingRows(limit: nat, leaseMs: nat, nowMs: int, locked: set<nat>)
      returns (claims: seq<D.PricingClaim>, ghost picked: seq<nat>)
      modifies this
      ensures D.FirstBy(picked, D.DuePricings(old(Contents()), locked, nowMs), D.OwnIds(old(Contents())), limit)
      ensures Contents() == D.ClaimPricings(old(Contents()), picked, leaseMs, nowMs)
      ensures claims == D.PricingClaims(old(Contents()), picked, nowMs)
    {
      hide Picks, D.FirstBy, D.PricingClaimOf, D.IsVerified, D.AnchorMs;
      ghost var before := Contents();
      ghost var ids, all := D.OwnIds(before), D.DuePricings(before, locked, nowMs);
      var due := map id | id in activities && id !in locked && ClaimablePricing(activities[id], nowMs) :: id;
      claims, picked := [], [];
      var taken := 0;
      assert due.Keys == all;
      NothingPicked(all, ids);
      while taken < limit && due != map[]
        invariant taken == |picked| <= limit
        invariant forall id | id in due ::
                    && id in before.activities && due[id] == id
                    && id in activities && activities[id] == before.activities[id]
        invariant due.Keys <= all && Picks(picked, due.Keys, all, ids)
        invariant Contents() == D.ClaimPricings(before, picked, leaseMs, nowMs)
        invariant claims == D.PricingClaims(before, picked, nowMs)
        decreases limit - taken
      {
        var id := Least(due);
        PickOne(picked, due.Keys, all, ids, id);
        assert (picked + [id])[..|picked|] == picked;
        picked := picked + [id];
        var claim := ClaimDuePricingRow(id, leaseMs, nowMs);
        claims := claims + [claim.value];
        due := due - {id};
        taken := taken + 1;
      }
      PicksAreFirst(picked, due.Keys, all, ids, limit);
    }

    method MarkServerPriced(id: nat, usdIn: Option<real>, usdOut: Option<real>) returns (marked: bool)
      modifies this`activities
      ensures marked <==> id in old(activities) && old(activities)[id].pricing.PricingPending?
      ensures activities == D.PricingWritten(old(activities), id, D.Publish(usdIn, usdOut), 0)
    {
      marked := id in activities && activities[id].pricing.PricingPending?;
      if marked {
        var row := activities[id].(pricing := ServerPriced, usdInPriced := usdIn, usdOutPriced := usdOut);
        activities := activities[id := row.(pricingDueMs := None)];
      }
    }

    method AddPricedVolume(bucket: D.Bucket, volumeUsd: real)
      modifies this`aggregates
      ensures aggregates == D.AddPricedVolume(old(aggregates), bucket, volumeUsd)
    {
      if bucket in aggregates {
        var was := aggregates[bucket];
        aggregates := aggregates[bucket := was.(volumeUsdPriced := was.volumeUsdPriced + volumeUsd)];
      } else {
        aggregates := aggregates[bucket := D.Aggregate(0.0, 0, volumeUsd)];
      }
    }

    /** The transaction that prices an activity and publishes its volume, or finds that another pass already did. */
    method PublishPricedActivity(claim: D.PricingClaim, usdIn: Option<real>, usdOut: Option<real>, nowMs: int)
      modifies this
      ensures Contents() == D.ApplyPricing(old(Contents()), claim, D.Publish(usdIn, usdOut), nowMs)
    {
      var claimedByThisPass := MarkServerPriced(claim.id, usdIn, usdOut);
      if !claimedByThisPass {
        return;
      }
      AddPricedVolume(claim.bucket, D.PricedVolumeOf(claim.eventRole, usdIn, usdOut));
    }

    method ReschedulePricing(id: nat, delayMs: int, nowMs: int)
      modifies this`activities
      ensures activities == D.PricingWritten(old(activities), id, D.PutBack(delayMs), nowMs)
    {
      if id in activities && activities[id].pricing.PricingPending? {
        var row := activities[id];
        activities := activities[id := row.(pricingAttempts := row.pricingAttempts + 1,
                                            pricingDueMs := Some(nowMs + delayMs))];
      }
    }

    method ExhaustPricing(id: nat)
      modifies this`activities
      ensures activities == D.PricingWritten(old(activities), id, D.Exhaust, 0)
    {
      if id in activities && activities[id].pricing.PricingPending? {
        var row := activities[id];
        activities := activities[id := row.(pricing := Unpriced, pricingAttempts := row.pricingAttempts + 1,
                                            pricingDueMs := None)];
      }
    }

    method AbandonPricing(id: nat)
      modifies this`activities
      ensures activities == D.PricingWritten(old(activities), id, D.Abandon, 0)
    {
      if id in activities && activities[id].pricing.PricingPending? {
        activities := activities[id := activities[id].(pricing := Unpriced, pricingDueMs := None)];
      }
    }

    method ApplyPricingOutcome(claim: D.PricingClaim, outcome: PricingDecision.PricingOutcome,
                               numeric: string -> real, nowMs: int)
      modifies this
      ensures Contents() == D.ApplyPricing(old(Contents()), claim, D.WriteOf(outcome, numeric), nowMs)
    {
      match outcome {
        case PricedAt(usdIn, usdOut) =>
          PublishPricedActivity(claim, D.InNumbers(usdIn, numeric), D.InNumbers(usdOut, numeric), nowMs);
        case Reschedule(delayMs) => ReschedulePricing(claim.id, delayMs, nowMs);
        case AttemptsExhausted => ExhaustPricing(claim.id);
        case _ => AbandonPricing(claim.id);
      }
    }

    method RequeueUnpricedActivities(chainId: Option<int>, nowMs: int) returns (requeuedCount: nat)
      modifies this
      ensures Contents() == D.RequeueUnpriced(old(Contents()), chainId, nowMs)
      ensures requeuedCount == |set id | id in old(activities) && D.RequeueReaches(old(activities)[id], chainId)|
    {
      requeuedCount := |set id | id in activities && D.RequeueReaches(activities[id], chainId)|;
      activities := map id | id in activities ::
        if D.RequeueReaches(activities[id], chainId) then D.RequeuedActivity(activities[id], nowMs) else activities[id];
    }

    // Purge

    /** Deleting an activity deletes its job. */
    method DeleteActivitiesOf(agent: string) returns (rowCount: nat)
      modifies this`activities, this`bySource, this`jobs
      ensures var gone := D.ActivitiesOf(old(activities), agent);
              && rowCount == |gone| && activities == old(activities) - gone && jobs == old(jobs) - gone
              && bySource == map key | key in old(bySource) && old(bySource)[key] !in gone :: old(bySource)[key]
    {
      hide D.ActivitiesOf;
      var gone := D.ActivitiesOf(activities, agent);
      rowCount := |gone|;
      activities, jobs := activities - gone, jobs - gone;
      bySource := map key | key in bySource && bySource[key] !in gone :: bySource[key];
    }

    method DeleteStrikesOf(agent: string) returns (rowCount: int)
      modifies this`strikes
      ensures strikes == D.WithoutAgent(old(strikes), agent)
      ensures rowCount > 0 <==> strikes != old(strikes)
    {
      D.WithoutAgentShrinks(strikes, agent);
      var kept := D.WithoutAgent(strikes, agent);
      rowCount := |strikes| - |kept|;
      strikes := kept;
    }

    method DeleteWalletsOf(agent: string) returns (rowCount: nat)
      modifies this`wallets
      ensures wallets == old(wallets) - D.WalletsOf(old(wallets), agent)
      ensures rowCount == |D.WalletsOf(old(wallets), agent)|
    {
      var owned := D.WalletsOf(wallets, agent);
      rowCount := |owned|;
      wallets := wallets - owned;
    }

    method StampPurged(agent: string, nowMs: int) returns (stamped: bool)
      modifies this`agents
      ensures stamped <==> agent in old(agents) && old(agents)[agent].purgedMs.None?
      ensures agents == D.AgentsPurged(old(agents), agent, nowMs)
    {
      stamped := agent in agents && agents[agent].purgedMs.None?;
      if stamped {
        agents := agents[agent := agents[agent].(purgedMs := Some(nowMs))];
      } else {
        assert agent in agents ==> agents == agents[agent := agents[agent]];
      }
    }

    /** Reports whether there was anything left to delete or stamp. */
    method PurgeAgentData(agent: string, nowMs: int) returns (purged: bool)
      modifies this
      ensures Contents() == D.PurgeAgent(old(Contents()), agent, nowMs)
      ensures purged <==> Contents() != old(Contents())
    {
      hide D.WithoutAgent, D.ActivitiesOf, D.WalletsOf, D.AgentsPurged;
      D.PurgeShows(Contents(), agent, nowMs);
      var deleted := DeleteActivitiesOf(agent);
      var withdrawn := DeleteStrikesOf(agent);
      var released := DeleteWalletsOf(agent);
      var stamped := StampPurged(agent, nowMs);
      purged := deleted > 0 || withdrawn > 0 || released > 0 || stamped;
    }
  }
}
