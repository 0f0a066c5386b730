/** The steps of a run as one activity and its job see them. */
module RowSteps {
  import opened Wrappers
  import opened Activities
  import opened Database
  import opened Protocol
  import opened VerifyJob
  import R = Receipt

  function Lookup<V>(table: map<nat, V>, id: nat): Option<V> {
    if id in table then Some(table[id]) else None
  }

  /** The row an event of this agent is for. */
  function TargetOf(db: Tables, agent: string, event: IngestEvent): nat {
    ExistingRow(db, agent, event.sourceRow).GetOr(db.nextId)
  }

  function SettledBy(row: Activity, outcome: JobOutcome, nowMs: int): Activity {
    if !row.verification.Queued? then row
    else
      match outcome
      case Reschedule(_, _) => row
      case CloseUnverifiable(_) => row.(verification := NotQueued)
      case Finalize(verdict) => FinalizedActivity(row, verdict, nowMs)
  }

  function RowAfterStep(s: System, m: Moment, id: nat): Option<Activity> {
    var row := Lookup(s.db.activities, id);
    match m.step
    case Ingests(agent, event) =>
      if agent !in s.db.agents || TargetOf(s.db, agent, event) != id then row
      else Some(RowAfterEvent(if ExistingRow(s.db, agent, event.sourceRow).None? then None else row, agent, event))
    case AppliesJobOutcome(of, outcome) =>
      if row.None? || of != id then row else Some(SettledBy(row.value, outcome, m.nowMs))
    case Retries(of) => if of == id && CanRetry(s.db, id) then Some(row.value.(verification := Queued)) else row
    case Reopens(of) => if of == id && CanReopen(s.db, id) then Some(row.value.(verification := Queued)) else row
    case ClaimsPricing(of, leaseMs) =>
      if of != id || !CanClaimPricing(s.db, id, m.nowMs) then row
      else Some(row.value.(pricingDueMs := Some(m.nowMs + leaseMs)))
    case AppliesPricing(claim, write) =>
      if row.None? || claim >= |s.claims| || s.claims[claim].id != id || !row.value.pricing.PricingPending? then row
      else Some(PricedActivity(row.value, write, m.nowMs))
    case Requeues(chainId) =>
      if row.None? || !RequeueReaches(row.value, chainId) then row else Some(RequeuedActivity(row.value, m.nowMs))
    case Purges(agent) => if row.Some? && row.value.agent == agent then None else row
    case _ => row
  }

  function JobAfterStep(s: System, m: Moment, id: nat): Option<Job> {
    var job := Lookup(s.db.jobs, id);
    match m.step
    case Ingests(agent, event) =>
      if agent !in s.db.agents || TargetOf(s.db, agent, event) != id || job.Some? then job
      else
        var row := if ExistingRow(s.db, agent, event.sourceRow).None? then None else Lookup(s.db.activities, id);
        if Enqueues(row, agent, event) then Some(Job(0, m.nowMs, m.nowMs)) else job
    case ClaimsJob(of, leaseMs) =>
      if of == id && CanClaimJob(s.db, id, m.nowMs) then Some(job.value.(nextAttemptMs := m.nowMs + leaseMs)) else job
    case AppliesJobOutcome(of, outcome) =>
      if of != id || job.None? then job
      else
        (match outcome
         case Reschedule(delayMs, _) =>
           Some(job.value.(attempts := job.value.attempts + 1, nextAttemptMs := m.nowMs + delayMs))
         case CloseUnverifiable(_) => None
         case Finalize(_) => if id in s.db.activities && s.db.activities[id].verification.Queued? then None else job)
    case Retries(of) => if of == id && CanRetry(s.db, id) then Some(Job(0, m.nowMs, m.nowMs)) else job
    case Reopens(of) => if of == id && CanReopen(s.db, id) then Some(Job(0, m.nowMs, m.nowMs)) else job
    case Purges(agent) => if id in s.db.activities && s.db.activities[id].agent == agent then None else job
    case _ => job
  }

  ghost predicate SeenBy(after: Tables, id: nat, row: Option<Activity>, job: Option<Job>) {
    Lookup(after.activities, id) == row && Lookup(after.jobs, id) == job
  }

  lemma SuccessKeepsRows(db: Tables, row: Activity, nowMs: int)
    requires AnchorMs(row).Some?
    ensures var after := RecordVerifiedSuccess(db, row, nowMs);
            after.activities == db.activities && after.jobs == db.jobs && after.nextId == db.nextId
  {
    hide AddVerified, AnchorMs, AggregateBucket;
  }

  lemma StrikeKeepsRows(db: Tables, id: nat, agent: string, reason: R.StrikeReason, quarantineStrikes: int, nowMs: int)
    ensures var after := RecordStrike(db, id, agent, reason, quarantineStrikes, nowMs);
            after.activities == db.activities && after.jobs == db.jobs && after.nextId == db.nextId
  {
    hide IndependentShapes, StruckAgent;
  }

  lemma FinalizeOnRows(db: Tables, id: nat, verdict: R.TerminalVerdict, quarantineStrikes: int, nowMs: int)
    requires id in db.activities && db.activities[id].verification.Queued?
    ensures var after := FinalizeVerification(db, id, verdict, quarantineStrikes, nowMs);
            && after.activities == db.activities[id := FinalizedActivity(db.activities[id], verdict, nowMs)]
            && after.jobs == db.jobs - {id} && after.nextId == db.nextId
  {
    hide RecordVerifiedSuccess, RecordStrike, IsLaunchShaped;
    var row := FinalizedActivity(db.activities[id], verdict, nowMs);
    var settled := db.(activities := db.activities[id := row], jobs := db.jobs - {id});
    if verdict.Strike? {
      StrikeKeepsRows(settled, id, row.agent, verdict.reason, quarantineStrikes, nowMs);
    } else {
      SuccessKeepsRows(settled, row, nowMs);
    }
  }

  lemma OutcomeOnRow(s: System, m: Moment, quarantineStrikes: int, id: nat)
    requires m.step.AppliesJobOutcome?
    ensures SeenBy(TablesAfter(s, m, quarantineStrikes), id, RowAfterStep(s, m, id), JobAfterStep(s, m, id))
  {
    hide FinalizedActivity;
    if m.step.outcome.Finalize? && m.step.id in s.db.activities && s.db.activities[m.step.id].verification.Queued? {
      hide FinalizeVerification;
      FinalizeOnRows(s.db, m.step.id, m.step.outcome.verdict, quarantineStrikes, m.nowMs);
    }
  }

  lemma IngestOnRow(s: System, m: Moment, quarantineStrikes: int, id: nat)
    requires m.step.Ingests?
    ensures SeenBy(TablesAfter(s, m, quarantineStrikes), id, RowAfterStep(s, m, id), JobAfterStep(s, m, id))
  {
    hide RowAfterEvent, Enqueues, SettledBy, PricedActivity, RequeuedActivity, CanRetry, CanReopen, CanClaimPricing,
      CanClaimJob, ApplyJobOutcome, ApplyPricing, PurgeAgent, ReopenVerification, LiftQuarantine, BindHandshake;
  }

  lemma ReopenOnRow(s: System, m: Moment, quarantineStrikes: int, id: nat)
    requires m.step.Retries? || m.step.Reopens?
    ensures SeenBy(TablesAfter(s, m, quarantineStrikes), id, RowAfterStep(s, m, id), JobAfterStep(s, m, id))
  {
    hide WithoutActivity, RestoredAgent, StrikesWithdrawn, ApplyEvent, ApplyJobOutcome, ApplyPricing, PurgeAgent;
  }

  lemma SweepOnRow(s: System, m: Moment, quarantineStrikes: int, id: nat)
    requires m.step.Requeues? || m.step.Purges?
    ensures SeenBy(TablesAfter(s, m, quarantineStrikes), id, RowAfterStep(s, m, id), JobAfterStep(s, m, id))
  {
    hide WithoutAgent, ApplyEvent, ApplyJobOutcome, ApplyPricing, ReopenVerification;
  }

  lemma PricingClaimOnRow(s: System, m: Moment, quarantineStrikes: int, id: nat)
    requires m.step.ClaimsPricing?
    ensures SeenBy(TablesAfter(s, m, quarantineStrikes), id, RowAfterStep(s, m, id), JobAfterStep(s, m, id))
  {
    hide IsVerified, AnchorMs, ApplyEvent, ApplyJobOutcome, ApplyPricing, PurgeAgent;
  }

  lemma PricingOnRow(s: System, m: Moment, quarantineStrikes: int, id: nat)
    requires m.step.AppliesPricing?
    ensures SeenBy(TablesAfter(s, m, quarantineStrikes), id, RowAfterStep(s, m, id), JobAfterStep(s, m, id))
  {
    hide AddPricedVolume, PricedActivity, PricedVolumeOf, ApplyEvent, ApplyJobOutcome, ClaimPricing, PurgeAgent,
      SettledBy, RowAfterEvent, Enqueues, CanClaimPricing, CanRetry, CanReopen, RequeuedActivity, ReopenVerification,
      RequeueUnpriced;
  }

  lemma OtherOnRow(s: System, m: Moment, quarantineStrikes: int, id: nat)
    requires m.step.Registers? || m.step.Revokes? || m.step.Binds? || m.step.Lifts? || m.step.ClaimsJob?
    ensures SeenBy(TablesAfter(s, m, quarantineStrikes), id, RowAfterStep(s, m, id), JobAfterStep(s, m, id))
  {
    hide WalletsClaimed;
  }

  /** A step over the whole database is, for each activity, the step on its row and its job. */
  lemma StepOnRow(s: System, m: Moment, quarantineStrikes: int, id: nat)
    ensures var after := TablesAfter(s, m, quarantineStrikes);
            Lookup(after.activities, id) == RowAfterStep(s, m, id) && Lookup(after.jobs, id) == JobAfterStep(s, m, id)
  {
    hide TablesAfter, RowAfterStep, JobAfterStep;
    match m.step
    case AppliesJobOutcome(_, _) => OutcomeOnRow(s, m, quarantineStrikes, id);
    case Ingests(_, _) => IngestOnRow(s, m, quarantineStrikes, id);
    case Retries(_) => ReopenOnRow(s, m, quarantineStrikes, id);
    case Reopens(_) => ReopenOnRow(s, m, quarantineStrikes, id);
    case Requeues(_) => SweepOnRow(s, m, quarantineStrikes, id);
    case Purges(_) => SweepOnRow(s, m, quarantineStrikes, id);
    case ClaimsPricing(_, _) => PricingClaimOnRow(s, m, quarantineStrikes, id);
    case AppliesPricing(_, _) => PricingOnRow(s, m, quarantineStrikes, id);
    case _ => OtherOnRow(s, m, quarantineStrikes, id);
  }

  lemma OutcomeKeepsNextId(db: Tables, id: nat, outcome: JobOutcome, quarantineStrikes: int, nowMs: int)
    ensures ApplyJobOutcome(db, id, outcome, quarantineStrikes, nowMs).nextId == db.nextId
  {
    hide FinalizedActivity;
    if outcome.Finalize? && id in db.activities && db.activities[id].verification.Queued? {
      hide FinalizeVerification;
      FinalizeOnRows(db, id, outcome.verdict, quarantineStrikes, nowMs);
    }
  }

  lemma OperatorsKeepNextId(db: Tables, id: nat, agent: string, chainId: Option<int>, quarantineStrikes: int,
                            nowMs: int)
    ensures RetryVerification(db, id, nowMs).nextId == db.nextId
    ensures ReopenVerification(db, id, quarantineStrikes, nowMs).nextId == db.nextId
    ensures LiftQuarantine(db, agent).nextId == db.nextId
    ensures RequeueUnpriced(db, chainId, nowMs).nextId == db.nextId
    ensures PurgeAgent(db, agent, nowMs).nextId == db.nextId
  {
    hide WithoutActivity, WithoutAgent, RestoredAgent, StrikesWithdrawn, RequeuedActivity, AgentsPurged;
  }

  /** Ids are never given out again. */
  lemma NextIdGrows(s: System, m: Moment, quarantineStrikes: int)
    ensures s.db.nextId <= TablesAfter(s, m, quarantineStrikes).nextId
  {
    hide ApplyJobOutcome, RetryVerification, ReopenVerification, LiftQuarantine, RequeueUnpriced, PurgeAgent,
      AddPricedVolume, WalletsClaimed, RowAfterEvent, Enqueues, PricedActivity, CanClaimJob, CanClaimPricing;
    match m.step
    case AppliesJobOutcome(id, outcome) => OutcomeKeepsNextId(s.db, id, outcome, quarantineStrikes, m.nowMs);
    case Retries(id) => OperatorsKeepNextId(s.db, id, "", None, quarantineStrikes, m.nowMs);
    case Reopens(id) => OperatorsKeepNextId(s.db, id, "", None, quarantineStrikes, m.nowMs);
    case Lifts(agent) => OperatorsKeepNextId(s.db, 0, agent, None, quarantineStrikes, m.nowMs);
    case Requeues(chainId) => OperatorsKeepNextId(s.db, 0, "", chainId, quarantineStrikes, m.nowMs);
    case Purges(agent) => OperatorsKeepNextId(s.db, 0, agent, None, quarantineStrikes, m.nowMs);
    case _ =>
  }
}
