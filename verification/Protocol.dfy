/** Runs of the whole system: any number of workers, operators and agents, in any order, over one database. */
module Protocol {
  import opened Wrappers
  import opened Activities
  import opened Database
  import VerifyJob
  import R = Receipt

  /** One transaction. A verification outcome may be applied to any activity at any time, so a worker whose lease
      ran out is covered; a pricing write names any claim ever made. */
  datatype Step =
    | Registers(agent: string, token: string)
    | Revokes(agent: string)
    | Binds(agent: string, token: string, proven: seq<Wallet>)
    | Ingests(agent: string, event: IngestEvent)
    | ClaimsJob(id: nat, leaseMs: nat)
    | AppliesJobOutcome(id: nat, outcome: VerifyJob.JobOutcome)
    | Retries(id: nat)
    | Reopens(id: nat)
    | Lifts(agent: string)
    | ClaimsPricing(id: nat, leaseMs: nat)
    | AppliesPricing(claim: nat, write: PricingWrite)
    | Requeues(chainId: Option<int>)
    | Purges(agent: string)

  /** A step, and the time the database reads while it runs. */
  datatype Moment = Moment(step: Step, nowMs: int)

  /** The database, the pricing claims made so far and the agents an operator has ever lifted out of quarantine. */
  datatype System = System(db: Tables, claims: seq<PricingClaim>, lifted: set<string>)

  function TablesAfter(s: System, m: Moment, quarantineStrikes: int): Tables {
    match m.step
    case Registers(agent, token) => Register(s.db, agent, token)
    case Revokes(agent) => Revoke(s.db, agent, m.nowMs)
    case Binds(agent, token, proven) => BindHandshake(s.db, agent, token, proven)
    case Ingests(agent, event) => ApplyEvent(s.db, agent, event, m.nowMs)
    case ClaimsJob(id, leaseMs) => ClaimJob(s.db, id, leaseMs, m.nowMs)
    case AppliesJobOutcome(id, outcome) => ApplyJobOutcome(s.db, id, outcome, quarantineStrikes, m.nowMs)
    case Retries(id) => RetryVerification(s.db, id, m.nowMs)
    case Reopens(id) => ReopenVerification(s.db, id, quarantineStrikes, m.nowMs)
    case Lifts(agent) => LiftQuarantine(s.db, agent)
    case ClaimsPricing(id, leaseMs) => ClaimPricing(s.db, id, leaseMs, m.nowMs)
    case AppliesPricing(claim, write) =>
      if claim < |s.claims| then ApplyPricing(s.db, s.claims[claim], write, m.nowMs) else s.db
    case Requeues(chainId) => RequeueUnpriced(s.db, chainId, m.nowMs)
    case Purges(agent) => PurgeAgent(s.db, agent, m.nowMs)
  }

  function ClaimsAfter(s: System, m: Moment): seq<PricingClaim> {
    if m.step.ClaimsPricing? && CanClaimPricing(s.db, m.step.id, m.nowMs)
    then s.claims + [PricingClaimOf(m.step.id, s.db.activities[m.step.id])]
    else s.claims
  }

  function LiftedAfter(s: System, m: Moment): set<string> {
    if m.step.Lifts? && m.step.agent in s.db.agents && s.db.agents[m.step.agent].status.Quarantined?
    then s.lifted + {m.step.agent} else s.lifted
  }

  function Next(s: System, m: Moment, quarantineStrikes: int): System {
    System(TablesAfter(s, m, quarantineStrikes), ClaimsAfter(s, m), LiftedAfter(s, m))
  }

  const START := System(EMPTY, [], {})

  /** The system after a run from the empty database. */
  function Run(moments: seq<Moment>, quarantineStrikes: int): System {
    if moments == [] then START
    else Next(Run(moments[..|moments| - 1], quarantineStrikes), moments[|moments| - 1], quarantineStrikes)
  }

  // The queue

  ghost predicate RowIsSound(row: Activity) {
    && (!row.verification.NotQueued? ==> row.status.Confirmed? && row.txHash.Some?)
    && (IsVerified(row) ==> row.verifiedAtMs.Some?)
  }

  /** Every row is under its own key in the unique index, which points nowhere else. */
  ghost predicate IndexMatches(activities: map<nat, Activity>, bySource: map<(string, string), nat>) {
    && (forall id | id in activities ::
          && (activities[id].agent, activities[id].sourceRow) in bySource
          && bySource[(activities[id].agent, activities[id].sourceRow)] == id)
    && (forall key | key in bySource ::
          bySource[key] in activities && (activities[bySource[key]].agent, activities[bySource[key]].sourceRow) == key)
  }

  /** Every row is sound, has an id the sequence has given out, and belongs to a known agent. */
  ghost predicate RowsMatch(activities: map<nat, Activity>, nextId: nat, agents: set<string>) {
    forall id | id in activities :: id < nextId && RowIsSound(activities[id]) && activities[id].agent in agents
  }

  /** An activity has a job exactly when it is queued. */
  ghost predicate JobsMatch(activities: map<nat, Activity>, jobs: map<nat, Job>) {
    forall id: nat :: id in jobs <==> id in activities && activities[id].verification.Queued?
  }

  ghost predicate QueueIsSound(db: Tables) {
    && IndexMatches(db.activities, db.bySource)
    && RowsMatch(db.activities, db.nextId, db.agents.Keys)
    && JobsMatch(db.activities, db.jobs)
  }

  /** A statement that rewrites one row, keeping its key, and brings the row's job in line. */
  lemma OneRowKeepsQueue(db: Tables, after: Tables, id: nat, row: Activity)
    requires QueueIsSound(db) && id in db.activities
    requires RowIsSound(row) && row.agent == db.activities[id].agent && row.sourceRow == db.activities[id].sourceRow
    requires after.activities == db.activities[id := row] && after.bySource == db.bySource && after.nextId == db.nextId
    requires db.agents.Keys <= after.agents.Keys
    requires forall k: nat | k != id :: k in after.jobs <==> k in db.jobs
    requires id in after.jobs <==> row.verification.Queued?
    ensures QueueIsSound(after)
  {
    assert IndexMatches(after.activities, after.bySource);
    assert RowsMatch(after.activities, after.nextId, after.agents.Keys);
  }

  /** A statement that touches neither rows nor which jobs there are. */
  lemma NoRowKeepsQueue(db: Tables, after: Tables)
    requires QueueIsSound(db)
    requires after.activities == db.activities && after.bySource == db.bySource && after.nextId == db.nextId
    requires db.agents.Keys <= after.agents.Keys && after.jobs.Keys == db.jobs.Keys
    ensures QueueIsSound(after)
  {
    assert RowsMatch(after.activities, after.nextId, after.agents.Keys);
    assert forall id: nat :: id in after.jobs <==> id in after.jobs.Keys;
    assert forall id: nat :: id in db.jobs <==> id in db.jobs.Keys;
  }

  lemma InsertKeepsQueue(db: Tables, after: Tables, row: Activity)
    requires QueueIsSound(db)
    requires RowIsSound(row) && row.agent in db.agents && (row.agent, row.sourceRow) !in db.bySource
    requires after.activities == db.activities[db.nextId := row] && after.nextId == db.nextId + 1
    requires after.bySource == db.bySource[(row.agent, row.sourceRow) := db.nextId]
    requires after.agents == db.agents
    requires forall k: nat | k != db.nextId :: k in after.jobs <==> k in db.jobs
    requires db.nextId in after.jobs <==> row.verification.Queued?
    ensures QueueIsSound(after)
  {
    assert db.nextId !in db.activities;
    assert IndexMatches(after.activities, after.bySource);
    assert RowsMatch(after.activities, after.nextId, after.agents.Keys);
  }

  lemma EventRowIsSound(row: Option<Activity>, agent: string, event: IngestEvent)
    requires row.Some? ==> RowIsSound(row.value)
    ensures RowIsSound(RowAfterEvent(row, agent, event))
    ensures row.Some? && Enqueues(row, agent, event) ==> RowAfterEvent(row, agent, event).verification.Queued?
    ensures row.Some? && !Enqueues(row, agent, event) ==>
        RowAfterEvent(row, agent, event).verification == row.value.verification
    ensures row.None? ==> (Enqueues(row, agent, event) <==> RowAfterEvent(row, agent, event).verification.Queued?)
  {
  }

  lemma KnownEventKeepsQueue(db: Tables, agent: string, event: IngestEvent, nowMs: int, id: nat)
    requires QueueIsSound(db)
    requires agent in db.agents && ExistingRow(db, agent, event.sourceRow) == Some(id)
    ensures QueueIsSound(ApplyEvent(db, agent, event, nowMs))
  {
    var row := RowAfterEvent(Some(db.activities[id]), agent, event);
    EventRowIsSound(Some(db.activities[id]), agent, event);
    assert row.agent == db.activities[id].agent && row.sourceRow == db.activities[id].sourceRow;
    assert id in db.jobs <==> db.activities[id].verification.Queued?;
    OneRowKeepsQueue(db, ApplyEvent(db, agent, event, nowMs), id, row);
  }

  lemma NewEventKeepsQueue(db: Tables, agent: string, event: IngestEvent, nowMs: int)
    requires QueueIsSound(db)
    requires agent in db.agents && ExistingRow(db, agent, event.sourceRow).None?
    ensures QueueIsSound(ApplyEvent(db, agent, event, nowMs))
  {
    EventRowIsSound(None, agent, event);
    assert db.nextId !in db.activities;
    assert db.nextId !in db.jobs;
    InsertKeepsQueue(db, ApplyEvent(db, agent, event, nowMs), InsertedActivity(agent, event));
  }

  lemma EventKeepsQueue(db: Tables, agent: string, event: IngestEvent, nowMs: int)
    requires QueueIsSound(db)
    ensures QueueIsSound(ApplyEvent(db, agent, event, nowMs))
  {
    if agent in db.agents {
      var existing := ExistingRow(db, agent, event.sourceRow);
      if existing.Some? {
        KnownEventKeepsQueue(db, agent, event, nowMs, existing.value);
      } else {
        NewEventKeepsQueue(db, agent, event, nowMs);
      }
    }
  }

  lemma FinalizeKeepsQueue(db: Tables, id: nat, verdict: R.TerminalVerdict, quarantineStrikes: int, nowMs: int)
    requires QueueIsSound(db)
    ensures QueueIsSound(FinalizeVerification(db, id, verdict, quarantineStrikes, nowMs))
  {
    hide IndexMatches, IndependentShapes;
    if id in db.activities && db.activities[id].verification.Queued? {
      var row := FinalizedActivity(db.activities[id], verdict, nowMs);
      var after := FinalizeVerification(db, id, verdict, quarantineStrikes, nowMs);
      assert after.activities == db.activities[id := row] && after.jobs == db.jobs - {id};
      assert db.agents.Keys <= after.agents.Keys;
      OneRowKeepsQueue(db, after, id, row);
    }
  }

  lemma CloseKeepsQueue(db: Tables, id: nat)
    requires QueueIsSound(db)
    ensures QueueIsSound(CloseUnverifiable(db, id))
  {
    var after := CloseUnverifiable(db, id);
    if id in db.activities && db.activities[id].verification.Queued? {
      OneRowKeepsQueue(db, after, id, db.activities[id].(verification := NotQueued));
    } else {
      assert id !in db.jobs;
      assert after.jobs == db.jobs;
    }
  }

  lemma OutcomeKeepsQueue(db: Tables, id: nat, outcome: VerifyJob.JobOutcome, quarantineStrikes: int, nowMs: int)
    requires QueueIsSound(db)
    ensures QueueIsSound(ApplyJobOutcome(db, id, outcome, quarantineStrikes, nowMs))
  {
    match outcome
    case Finalize(verdict) => FinalizeKeepsQueue(db, id, verdict, quarantineStrikes, nowMs);
    case CloseUnverifiable(_) => CloseKeepsQueue(db, id);
    case Reschedule(delayMs, _) => NoRowKeepsQueue(db, RescheduleJob(db, id, delayMs, nowMs));
  }

  lemma OperatorsKeepQueue(db: Tables, after: Tables, id: nat, quarantineStrikes: int, nowMs: int)
    requires QueueIsSound(db)
    requires after == RetryVerification(db, id, nowMs) || after == ReopenVerification(db, id, quarantineStrikes, nowMs)
    ensures QueueIsSound(after)
  {
    if after != db {
      OneRowKeepsQueue(db, after, id, db.activities[id].(verification := Queued));
    }
  }

  lemma ClaimPricingKeepsQueue(db: Tables, id: nat, leaseMs: nat, nowMs: int)
    requires QueueIsSound(db)
    ensures QueueIsSound(ClaimPricing(db, id, leaseMs, nowMs))
  {
    if CanClaimPricing(db, id, nowMs) {
      OneRowKeepsQueue(db, ClaimPricing(db, id, leaseMs, nowMs), id,
                       db.activities[id].(pricingDueMs := Some(nowMs + leaseMs)));
    }
  }

  lemma PricingKeepsQueue(db: Tables, claim: PricingClaim, write: PricingWrite, nowMs: int)
    requires QueueIsSound(db)
    ensures QueueIsSound(ApplyPricing(db, claim, write, nowMs))
  {
    if claim.id in db.activities && db.activities[claim.id].pricing.PricingPending? {
      OneRowKeepsQueue(db, ApplyPricing(db, claim, write, nowMs), claim.id,
                       PricedActivity(db.activities[claim.id], write, nowMs));
    }
  }

  lemma RequeueKeepsQueue(db: Tables, chainId: Option<int>, nowMs: int)
    requires QueueIsSound(db)
    ensures QueueIsSound(RequeueUnpriced(db, chainId, nowMs))
  {
    var after := RequeueUnpriced(db, chainId, nowMs);
    forall id | id in after.activities
      ensures id in db.activities && RowIsSound(after.activities[id])
      ensures after.activities[id].agent == db.activities[id].agent
          && after.activities[id].sourceRow == db.activities[id].sourceRow
      ensures after.activities[id].verification == db.activities[id].verification
    {
    }
    assert IndexMatches(after.activities, after.bySource);
    assert RowsMatch(after.activities, after.nextId, after.agents.Keys);
  }

  lemma PurgeKeepsQueue(db: Tables, agent: string, nowMs: int)
    requires QueueIsSound(db)
    ensures QueueIsSound(PurgeAgent(db, agent, nowMs))
  {
    var after := PurgeAgent(db, agent, nowMs);
    assert IndexMatches(after.activities, after.bySource);
    assert RowsMatch(after.activities, after.nextId, after.agents.Keys);
  }

  lemma RegisterKeepsQueue(db: Tables, agent: string, token: string)
    requires QueueIsSound(db)
    ensures QueueIsSound(Register(db, agent, token))
  {
    hide QueueIsSound;
    NoRowKeepsQueue(db, Register(db, agent, token));
  }

  lemma RevokeKeepsQueue(db: Tables, agent: string, nowMs: int)
    requires QueueIsSound(db)
    ensures QueueIsSound(Revoke(db, agent, nowMs))
  {
    hide QueueIsSound;
    NoRowKeepsQueue(db, Revoke(db, agent, nowMs));
  }

  lemma LiftKeepsQueue(db: Tables, agent: string)
    requires QueueIsSound(db)
    ensures QueueIsSound(LiftQuarantine(db, agent))
  {
    hide QueueIsSound;
    NoRowKeepsQueue(db, LiftQuarantine(db, agent));
  }

  lemma BindKeepsQueue(db: Tables, agent: string, token: string, proven: seq<Wallet>)
    requires QueueIsSound(db)
    ensures QueueIsSound(BindHandshake(db, agent, token, proven))
  {
    hide QueueIsSound;
    NoRowKeepsQueue(db, BindHandshake(db, agent, token, proven));
  }

  lemma ClaimJobKeepsQueue(db: Tables, id: nat, leaseMs: nat, nowMs: int)
    requires QueueIsSound(db)
    ensures QueueIsSound(ClaimJob(db, id, leaseMs, nowMs))
  {
    hide QueueIsSound;
    NoRowKeepsQueue(db, ClaimJob(db, id, leaseMs, nowMs));
  }

  lemma NextKeepsQueue(s: System, m: Moment, quarantineStrikes: int)
    requires QueueIsSound(s.db)
    ensures QueueIsSound(TablesAfter(s, m, quarantineStrikes))
  {
    hide QueueIsSound;
    hide Register, Revoke, BindHandshake, ApplyEvent, ClaimJob, ApplyJobOutcome, RetryVerification, ReopenVerification,
      LiftQuarantine, ClaimPricing, ApplyPricing, RequeueUnpriced, PurgeAgent;
    match m.step
    case Registers(agent, token) => RegisterKeepsQueue(s.db, agent, token);
    case Revokes(agent) => RevokeKeepsQueue(s.db, agent, m.nowMs);
    case Lifts(agent) => LiftKeepsQueue(s.db, agent);
    case Binds(agent, token, proven) => BindKeepsQueue(s.db, agent, token, proven);
    case Ingests(agent, event) => EventKeepsQueue(s.db, agent, event, m.nowMs);
    case ClaimsJob(id, leaseMs) => ClaimJobKeepsQueue(s.db, id, leaseMs, m.nowMs);
    case AppliesJobOutcome(id, outcome) => OutcomeKeepsQueue(s.db, id, outcome, quarantineStrikes, m.nowMs);
    case Retries(id) => OperatorsKeepQueue(s.db, RetryVerification(s.db, id, m.nowMs), id, quarantineStrikes, m.nowMs);
    case Reopens(id) => OperatorsKeepQueue(s.db, ReopenVerification(s.db, id, quarantineStrikes, m.nowMs), id,
                                           quarantineStrikes, m.nowMs);
    case ClaimsPricing(id, leaseMs) => ClaimPricingKeepsQueue(s.db, id, leaseMs, m.nowMs);
    case AppliesPricing(claim, write) =>
      if claim < |s.claims| {
        PricingKeepsQueue(s.db, s.claims[claim], write, m.nowMs);
      }
    case Requeues(chainId) => RequeueKeepsQueue(s.db, chainId, m.nowMs);
    case Purges(agent) => PurgeKeepsQueue(s.db, agent, m.nowMs);
  }

  /** In every reachable state an activity has a job exactly when it is queued, and then it is confirmed and has
      a transaction hash. */
  lemma {:induction false} QueueStaysConsistent(moments: seq<Moment>, quarantineStrikes: int)
    ensures var db := Run(moments, quarantineStrikes).db;
            && QueueIsSound(db)
            && (forall id: nat :: id in db.jobs <==> id in db.activities && db.activities[id].verification.Queued?)
            && (forall id | id in db.jobs :: db.activities[id].status.Confirmed? && db.activities[id].txHash.Some?)
  {
    if moments != [] {
      var earlier := moments[..|moments| - 1];
      QueueStaysConsistent(earlier, quarantineStrikes);
      NextKeepsQueue(Run(earlier, quarantineStrikes), moments[|moments| - 1], quarantineStrikes);
    }
  }

  /** A claim holds off every other claim exactly until its lease is over, or until an outcome is applied. */
  lemma LeaseHoldsOff(db: Tables, id: nat, leaseMs: nat, nowMs: int, laterMs: int)
    requires CanClaimJob(db, id, nowMs)
    ensures CanClaimJob(ClaimJob(db, id, leaseMs, nowMs), id, laterMs) <==> laterMs >= nowMs + leaseMs
  {
  }

  lemma PricingLeaseHoldsOff(db: Tables, id: nat, leaseMs: nat, nowMs: int, laterMs: int)
    requires CanClaimPricing(db, id, nowMs)
    ensures CanClaimPricing(ClaimPricing(db, id, leaseMs, nowMs), id, laterMs) <==> laterMs >= nowMs + leaseMs
  {
  }

  /** A job that is put off counts one attempt, keeps its first one, and is due exactly when its delay is over. */
  lemma PutOffJobWaits(db: Tables, id: nat, delayMs: int, nowMs: int, laterMs: int)
    requires id in db.jobs
    ensures var after := RescheduleJob(db, id, delayMs, nowMs);
            && after.jobs.Keys == db.jobs.Keys && after.activities == db.activities
            && after.jobs[id].attempts == db.jobs[id].attempts + 1
            && after.jobs[id].firstAttemptMs == db.jobs[id].firstAttemptMs
            && (laterMs < nowMs + delayMs ==> !CanClaimJob(after, id, laterMs))
            && after.jobs[id].nextAttemptMs == nowMs + delayMs
  {
  }

  /** A pending row that is put back counts one attempt, stays pending, and is not claimed before its delay is over. */
  lemma PutBackRowWaits(db: Tables, claim: PricingClaim, delayMs: int, nowMs: int, laterMs: int)
    requires claim.id in db.activities && db.activities[claim.id].pricing.PricingPending?
    ensures var after := ApplyPricing(db, claim, PutBack(delayMs), nowMs);
            && after.aggregates == db.aggregates && claim.id in after.activities
            && after.activities[claim.id].pricing.PricingPending?
            && after.activities[claim.id].pricingAttempts == db.activities[claim.id].pricingAttempts + 1
            && (laterMs < nowMs + delayMs ==> !CanClaimPricing(after, claim.id, laterMs))
            && after.activities[claim.id].pricingDueMs == Some(nowMs + delayMs)
  {
  }

  /** A purge leaves nothing of its agent but the stamp, and everything of the others, published totals included;
      purging again changes nothing. */
  lemma PurgeIsThorough(db: Tables, agent: string, nowMs: int, laterMs: int)
    ensures var after := PurgeAgent(db, agent, nowMs);
            && (forall id | id in db.activities ::
                  if db.activities[id].agent == agent then id !in after.activities && id !in after.jobs
                  else id in after.activities && after.activities[id] == db.activities[id])
            && (forall id | id in after.activities :: id in db.activities)
            && (agent in db.agents ==>
                  && agent in after.agents
                  && after.agents[agent].purgedMs
                     == (if db.agents[agent].purgedMs.Some? then db.agents[agent].purgedMs else Some(nowMs))
                  && after.agents[agent].(purgedMs := None) == db.agents[agent].(purgedMs := None))
            && (forall strike :: strike in after.strikes ==> strike in db.strikes && strike.agent != agent)
            && (forall strike | strike in db.strikes && strike.agent != agent :: strike in after.strikes)
            && (forall wallet :: wallet in after.wallets <==> wallet in db.wallets && db.wallets[wallet] != agent)
            && (forall wallet | wallet in after.wallets :: after.wallets[wallet] == db.wallets[wallet])
            && after.aggregates == db.aggregates && after.nextId == db.nextId
            && (forall other | other in db.agents && other != agent ::
                  other in after.agents && after.agents[other] == db.agents[other])
            && PurgeAgent(after, agent, laterMs) == after
  {
    hide WithoutAgent;
    PurgingAgainChangesNothing(db, agent, nowMs, laterMs);
    forall strike
      ensures strike in WithoutAgent(db.strikes, agent) <==> strike in db.strikes && strike.agent != agent
    {
      WithoutAgentKeeps(db.strikes, agent, strike);
    }
  }

  lemma {:induction false} WithoutAgentKeeps(strikes: seq<StrikeRow>, agent: string, strike: StrikeRow)
    ensures strike in WithoutAgent(strikes, agent) <==> strike in strikes && strike.agent != agent
  {
    if strikes != [] {
      WithoutAgentKeeps(strikes[1..], agent, strike);
    }
  }

  lemma PurgingAgainChangesNothing(db: Tables, agent: string, nowMs: int, laterMs: int)
    ensures PurgeAgent(PurgeAgent(db, agent, nowMs), agent, laterMs) == PurgeAgent(db, agent, nowMs)
  {
    hide WithoutAgent;
    var after := PurgeAgent(db, agent, nowMs);
    WithoutAgentTwice(db.strikes, agent);
    PurgeShows(after, agent, laterMs);
  }

  lemma {:induction false} WithoutAgentTwice(strikes: seq<StrikeRow>, agent: string)
    ensures WithoutAgent(WithoutAgent(strikes, agent), agent) == WithoutAgent(strikes, agent)
  {
    if strikes != [] {
      WithoutAgentTwice(strikes[1..], agent);
      var rest := WithoutAgent(strikes[1..], agent);
      assert ([strikes[0]] + rest)[1..] == rest;
    }
  }
}
