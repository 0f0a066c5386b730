/** The repository carries out the runs of the system: step by step its tables are those of the run. */
module Execution {
  import opened Wrappers
  import opened Protocol
  import D = Database
  import Store

  /** What a pricing worker writes for its claim (applyOutcome in apps/server/src/worker/pricing-loop.ts). */
  method WritePricing(repo: Store.Repository, claim: D.PricingClaim, write: D.PricingWrite, nowMs: int)
    modifies repo
    ensures repo.Contents() == D.ApplyPricing(old(repo.Contents()), claim, write, nowMs)
  {
    match write {
      case Publish(usdIn, usdOut) => repo.PublishPricedActivity(claim, usdIn, usdOut, nowMs);
      case PutBack(delayMs) => repo.ReschedulePricing(claim.id, delayMs, nowMs);
      case Exhaust => repo.ExhaustPricing(claim.id);
      case Abandon => repo.AbandonPricing(claim.id);
    }
  }

  /** One transaction of agents, workers or operators on verification. */
  method PerformOther(repo: Store.Repository, ghost s: System, m: Moment, quarantineStrikes: int)
    requires s.db == repo.Contents() && !m.step.ClaimsPricing? && !m.step.AppliesPricing?
    modifies repo
    ensures repo.Contents() == TablesAfter(s, m, quarantineStrikes)
  {
    hide D.Register, D.Revoke, D.BindHandshake, D.ApplyEvent, D.ClaimJob, D.ApplyJobOutcome, D.RetryVerification,
      D.ReopenVerification, D.LiftQuarantine, D.ApplyPricing, D.RequeueUnpriced, D.PurgeAgent;
    match m.step {
      case Registers(agent, token) => var registered := repo.UpsertAgentRegistration(agent, token);
      case Revokes(agent) => repo.RevokeAgent(agent, m.nowMs);
      case Binds(agent, token, proven) => repo.CompleteHandshakeBinding(agent, token, proven);
      case Ingests(agent, event) => var accepted := repo.ApplyEvent(agent, event, m.nowMs);
      case ClaimsJob(id, leaseMs) => var claimed := repo.ClaimDueJob(id, leaseMs, m.nowMs);
      case AppliesJobOutcome(id, outcome) => repo.ApplyJobOutcome(id, outcome, quarantineStrikes, m.nowMs);
      case Retries(id) => var requeued := repo.RetryVerification(id, m.nowMs);
      case Reopens(id) =>
        var reopened, withdrawn, lifted := repo.ReopenVerification(id, quarantineStrikes, m.nowMs);
      case Lifts(agent) => var lifted := repo.LiftQuarantine(agent);
      case Requeues(chainId) => var count := repo.RequeueUnpricedActivities(chainId, m.nowMs);
      case Purges(agent) => var purged := repo.PurgeAgentData(agent, m.nowMs);
    }
  }

  method Perform(repo: Store.Repository, claims: seq<D.PricingClaim>, ghost s: System, m: Moment,
                 quarantineStrikes: int)
    returns (claimed: seq<D.PricingClaim>)
    requires s.db == repo.Contents() && s.claims == claims
    modifies repo
    ensures repo.Contents() == TablesAfter(s, m, quarantineStrikes) && claimed == ClaimsAfter(s, m)
  {
    hide D.ApplyPricing, D.ClaimPricing, D.PricingClaimOf;
    claimed := claims;
    if m.step.ClaimsPricing? {
      var claim := repo.ClaimDuePricingRow(m.step.id, m.step.leaseMs, m.nowMs);
      if claim.Some? {
        claimed := claims + [claim.value];
      }
    } else if m.step.AppliesPricing? {
      if m.step.claim < |claims| {
        WritePricing(repo, claims[m.step.claim], m.step.write, m.nowMs);
      }
    } else {
      PerformOther(repo, s, m, quarantineStrikes);
    }
  }

  /** An empty repository that is driven through the moments of a run ends with the run's tables and claims, so what
      holds in every run holds of the repository. */
  method Execute(repo: Store.Repository, moments: seq<Moment>, quarantineStrikes: int)
    returns (claims: seq<D.PricingClaim>)
    requires repo.Contents() == D.EMPTY
    modifies repo
    ensures repo.Contents() == Run(moments, quarantineStrikes).db && claims == Run(moments, quarantineStrikes).claims
    ensures QueueIsSound(repo.Contents())
  {
    hide TablesAfter, ClaimsAfter, LiftedAfter, QueueIsSound;
    claims := [];
    for i := 0 to |moments|
      invariant repo.Contents() == Run(moments[..i], quarantineStrikes).db
      invariant claims == Run(moments[..i], quarantineStrikes).claims
    {
      assert moments[..i + 1][..i] == moments[..i];
      claims := Perform(repo, claims, Run(moments[..i], quarantineStrikes), moments[i], quarantineStrikes);
    }
    assert moments[..|moments|] == moments;
    QueueStaysConsistent(moments, quarantineStrikes);
  }

  // A batch is a run of single claims

  function JobBatch(ids: seq<nat>, leaseMs: nat, nowMs: int): seq<Moment> {
    if ids == [] then []
    else JobBatch(ids[..|ids| - 1], leaseMs, nowMs) + [Moment(ClaimsJob(ids[|ids| - 1], leaseMs), nowMs)]
  }

  function PricingBatch(ids: seq<nat>, leaseMs: nat, nowMs: int): seq<Moment> {
    if ids == [] then []
    else PricingBatch(ids[..|ids| - 1], leaseMs, nowMs) + [Moment(ClaimsPricing(ids[|ids| - 1], leaseMs), nowMs)]
  }

  lemma RunOneMore(moments: seq<Moment>, m: Moment, quarantineStrikes: int)
    ensures Run(moments + [m], quarantineStrikes) == Next(Run(moments, quarantineStrikes), m, quarantineStrikes)
  {
    hide Next;
    assert (moments + [m])[..|moments|] == moments;
  }

  lemma ClaimStep(s: System, id: nat, leaseMs: nat, nowMs: int, quarantineStrikes: int)
    ensures Next(s, Moment(ClaimsJob(id, leaseMs), nowMs), quarantineStrikes)
            == s.(db := D.ClaimJob(s.db, id, leaseMs, nowMs))
    ensures Next(s, Moment(ClaimsPricing(id, leaseMs), nowMs), quarantineStrikes)
            == s.(db := D.ClaimPricing(s.db, id, leaseMs, nowMs),
                  claims := s.claims + D.PricingClaims(s.db, [id], nowMs))
  {
    hide D.ClaimJob, D.ClaimPricing, D.PricingClaimOf, D.IsVerified, D.AnchorMs;
    assert [id][..0] == [] && D.PricingClaims(s.db, [], nowMs) == [];
  }

  lemma {:induction false} JobBatchIsARun(moments: seq<Moment>, ids: seq<nat>, leaseMs: nat, nowMs: int,
                                          quarantineStrikes: int)
    ensures Run(moments + JobBatch(ids, leaseMs, nowMs), quarantineStrikes)
            == Run(moments, quarantineStrikes).(
                 db := D.ClaimJobs(Run(moments, quarantineStrikes).db, ids, leaseMs, nowMs))
    decreases |ids|
  {
    hide D.ClaimJob, Run, Next;
    var all := moments + JobBatch(ids, leaseMs, nowMs);
    if ids == [] {
      assert all == moments;
    } else {
      var front, id := ids[..|ids| - 1], ids[|ids| - 1];
      assert all == moments + JobBatch(front, leaseMs, nowMs) + [Moment(ClaimsJob(id, leaseMs), nowMs)];
      RunOneMore(moments + JobBatch(front, leaseMs, nowMs), Moment(ClaimsJob(id, leaseMs), nowMs), quarantineStrikes);
      JobBatchIsARun(moments, front, leaseMs, nowMs, quarantineStrikes);
      ClaimStep(Run(moments + JobBatch(front, leaseMs, nowMs), quarantineStrikes), id, leaseMs, nowMs,
                quarantineStrikes);
    }
  }

  lemma {:induction false} OthersStayClaimable(db: D.Tables, ids: seq<nat>, leaseMs: nat, nowMs: int, id: nat)
    requires id !in ids
    ensures var after := D.ClaimPricings(db, ids, leaseMs, nowMs);
            && (id in after.activities <==> id in db.activities)
            && (id in db.activities ==> after.activities[id] == db.activities[id])
  {
    if ids != [] {
      OthersStayClaimable(db, ids[..|ids| - 1], leaseMs, nowMs, id);
    }
  }

  lemma {:induction false} PricingBatchIsARun(moments: seq<Moment>, ids: seq<nat>, leaseMs: nat, nowMs: int,
                                              quarantineStrikes: int)
    requires D.Distinct(ids)
    ensures var was, now := Run(moments, quarantineStrikes),
                Run(moments + PricingBatch(ids, leaseMs, nowMs), quarantineStrikes);
            && now.db == D.ClaimPricings(was.db, ids, leaseMs, nowMs)
            && now.claims == was.claims + D.PricingClaims(was.db, ids, nowMs)
    decreases |ids|
  {
    hide D.ClaimPricing, D.PricingClaimOf, D.IsVerified, D.AnchorMs, Run, Next;
    var all := moments + PricingBatch(ids, leaseMs, nowMs);
    if ids == [] {
      assert all == moments;
    } else {
      var front, id := ids[..|ids| - 1], ids[|ids| - 1];
      assert all == moments + PricingBatch(front, leaseMs, nowMs) + [Moment(ClaimsPricing(id, leaseMs), nowMs)];
      RunOneMore(moments + PricingBatch(front, leaseMs, nowMs), Moment(ClaimsPricing(id, leaseMs), nowMs),
                 quarantineStrikes);
      PricingBatchIsARun(moments, front, leaseMs, nowMs, quarantineStrikes);
      ClaimStep(Run(moments + PricingBatch(front, leaseMs, nowMs), quarantineStrikes), id, leaseMs, nowMs,
                quarantineStrikes);
      LastClaimIsAsBefore(Run(moments, quarantineStrikes).db, ids, leaseMs, nowMs);
    }
  }

  lemma LastClaimIsAsBefore(db: D.Tables, ids: seq<nat>, leaseMs: nat, nowMs: int)
    requires D.Distinct(ids) && ids != []
    ensures var front, id := ids[..|ids| - 1], ids[|ids| - 1];
            D.PricingClaims(db, ids, nowMs)
            == D.PricingClaims(db, front, nowMs)
               + D.PricingClaims(D.ClaimPricings(db, front, leaseMs, nowMs), [id], nowMs)
  {
    hide D.ClaimPricing, D.PricingClaimOf, D.IsVerified, D.AnchorMs;
    var front, id := ids[..|ids| - 1], ids[|ids| - 1];
    var after := D.ClaimPricings(db, front, leaseMs, nowMs);
    OthersStayClaimable(db, front, leaseMs, nowMs, id);
    assert D.CanClaimPricing(after, id, nowMs) == D.CanClaimPricing(db, id, nowMs);
    assert [id][..0] == [] && D.PricingClaims(after, [], nowMs) == [];
  }
}
