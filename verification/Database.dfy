/** The tables and the statements that change them, each transaction as one function of the whole database
    (apps/server/src/repos, apps/server/src/cli). */
module Database {
  import opened Wrappers
  import opened Activities
  import Backoff
  import Chains
  import VerifyJob
  import PricingDecision
  import R = Receipt

  datatype Job = Job(attempts: nat, firstAttemptMs: int, nextAttemptMs: int)

  datatype StrikeCause = Verdict(reason: R.StrikeReason) | OperatorReopen | OperatorLift

  datatype StrikeRow = StrikeRow(agent: string, activityId: Option<nat>, cause: StrikeCause)

  datatype AgentStatus = Active | Revoked | Quarantined

  datatype Agent = Agent(token: string, status: AgentStatus, strikeCount: nat, firstVerifiedMs: Option<int>,
                         quarantinedMs: Option<int>, revokedMs: Option<int>, purgedMs: Option<int>)

  datatype Bucket = Bucket(day: int, protocol: string, kind: VerifyJob.Kind)

  datatype Aggregate = Aggregate(volumeUsd: real, txCount: nat, volumeUsdPriced: real)

  /** A wallet address, under the keyed hash it is stored as. */
  datatype Wallet = Wallet(chainFamily: Chains.ChainFamily, addressHmac: string)

  /** `bySource` is the unique index on agent and source row; `nextId` the sequence, which never goes back. */
  datatype Tables = Tables(activities: map<nat, Activity>, bySource: map<(string, string), nat>, nextId: nat,
                           jobs: map<nat, Job>, strikes: seq<StrikeRow>, agents: map<string, Agent>,
                           aggregates: map<Bucket, Aggregate>, wallets: map<Wallet, string>)

  const EMPTY := Tables(map[], map[], 0, map[], [], map[], map[], map[])

  // Expressions over one row

  function SettledAtMs(row: Activity): Option<int> {
    Coalesce(row.clientConfirmedAtMs, row.blockTimeMs)
  }

  function AnchorMs(row: Activity): Option<int> {
    Coalesce(SettledAtMs(row), row.verifiedAtMs)
  }

  function AggregateBucket(row: Activity): Bucket
    requires AnchorMs(row).Some?
  {
    Bucket(AnchorMs(row).value / Backoff.DAY_MS, row.protocol, row.kind)
  }

  predicate IsVerified(row: Activity) {
    row.verification.VerifiedFull? || row.verification.VerifiedBasic?
  }

  /** Launches of a token are never struck. */
  predicate IsLaunchShaped(row: Activity) {
    row.kind.Launch? && row.eventRole == "token_launch"
  }

  predicate DeploysCapital(eventRole: string) {
    eventRole in {"swap", "bridge_deposit", "lend_deposit", "predict_buy"}
  }

  function VolumeContribution(row: Activity): real {
    if DeploysCapital(row.eventRole) then row.usdInEst.GetOr(0.0) else 0.0
  }

  function PricedVolumeOf(eventRole: string, usdIn: Option<real>, usdOut: Option<real>): real {
    if DeploysCapital(eventRole) then Coalesce(usdIn, usdOut).GetOr(0.0) else 0.0
  }

  // Counting strike rows

  /** DELETE FROM strikes WHERE activity_id = id */
  function WithoutActivity(strikes: seq<StrikeRow>, id: nat): seq<StrikeRow> {
    if strikes == [] then []
    else if strikes[0].activityId == Some(id) then WithoutActivity(strikes[1..], id)
    else [strikes[0]] + WithoutActivity(strikes[1..], id)
  }

  /** DELETE FROM strikes WHERE agent_hash = agent */
  function WithoutAgent(strikes: seq<StrikeRow>, agent: string): seq<StrikeRow> {
    if strikes == [] then []
    else if strikes[0].agent == agent then WithoutAgent(strikes[1..], agent)
    else [strikes[0]] + WithoutAgent(strikes[1..], agent)
  }

  /** The kind of wrong a strike stands for; several strikes of one shape count once. */
  datatype Shape = Shape(cause: StrikeCause, protocol: string, kind: VerifyJob.Kind, eventRole: string,
                         chainFamily: Chains.ChainFamily, chainId: int)

  function ShapeOf(strike: StrikeRow, row: Activity): Shape {
    Shape(strike.cause, row.protocol, row.kind, row.eventRole, row.chainFamily, row.chainId)
  }

  /** SELECT DISTINCT over the agent's strikes joined to their activities. */
  function IndependentShapes(strikes: seq<StrikeRow>, activities: map<nat, Activity>, agent: string): set<Shape> {
    if strikes == [] then {}
    else
      IndependentShapes(strikes[1..], activities, agent)
      + if strikes[0].agent == agent && strikes[0].activityId.Some? && strikes[0].activityId.value in activities
        then {ShapeOf(strikes[0], activities[strikes[0].activityId.value])} else {}
  }

  // Agents

  function Register(db: Tables, agent: string, token: string): Tables {
    if agent !in db.agents then db.(agents := db.agents[agent := Agent(token, Active, 0, None, None, None, None)])
    else if db.agents[agent].token == token then
      db.(agents := db.agents[agent := db.agents[agent].(status := Active, revokedMs := None)])
    else db
  }

  function Revoke(db: Tables, agent: string, nowMs: int): Tables {
    if agent in db.agents && !db.agents[agent].status.Revoked? then
      db.(agents := db.agents[agent := db.agents[agent].(status := Revoked, revokedMs := Some(nowMs))])
    else db
  }

  /** Each proven wallet goes to the agent that proved it last. */
  function WalletsClaimed(wallets: map<Wallet, string>, proven: seq<Wallet>, agent: string): map<Wallet, string> {
    if proven == [] then wallets
    else WalletsClaimed(wallets, proven[..|proven| - 1], agent)[proven[|proven| - 1] := agent]
  }

  /** A completed handshake: a new agent is active, a known one gets a new token and keeps its standing. */
  function BindHandshake(db: Tables, agent: string, token: string, proven: seq<Wallet>): Tables {
    db.(agents := if agent in db.agents then db.agents[agent := db.agents[agent].(token := token)]
                  else db.agents[agent := Agent(token, Active, 0, None, None, None, None)],
        wallets := WalletsClaimed(db.wallets, proven, agent))
  }

  // Ingest

  function ExistingRow(db: Tables, agent: string, sourceRow: string): Option<nat> {
    if (agent, sourceRow) in db.bySource && db.bySource[(agent, sourceRow)] in db.activities
    then Some(db.bySource[(agent, sourceRow)]) else None
  }

  /** INSERT ... ON CONFLICT DO NOTHING */
  function Enqueued(jobs: map<nat, Job>, id: nat, nowMs: int): map<nat, Job> {
    if id in jobs then jobs else jobs[id := Job(0, nowMs, nowMs)]
  }

  /** One event of an authenticated agent. */
  function ApplyEvent(db: Tables, agent: string, event: IngestEvent, nowMs: int): Tables
  {
    if agent !in db.agents then db
    else
      var existing := ExistingRow(db, agent, event.sourceRow);
      if existing.None? then
        db.(activities := db.activities[db.nextId := RowAfterEvent(None, agent, event)],
            bySource := db.bySource[(agent, event.sourceRow) := db.nextId],
            nextId := db.nextId + 1,
            jobs := if Enqueues(None, agent, event) then Enqueued(db.jobs, db.nextId, nowMs) else db.jobs)
      else
        var id := existing.value;
        var row := Some(db.activities[id]);
        db.(activities := db.activities[id := RowAfterEvent(row, agent, event)],
            jobs := if Enqueues(row, agent, event) then Enqueued(db.jobs, id, nowMs) else db.jobs)
  }

  // Verification

  predicate CanClaimJob(db: Tables, id: nat, nowMs: int) {
    && id in db.jobs && db.jobs[id].nextAttemptMs <= nowMs
    && id in db.activities && !db.activities[id].status.SupersededUnproven?
  }

  /** The lease one due job is claimed under. */
  function ClaimJob(db: Tables, id: nat, leaseMs: nat, nowMs: int): Tables {
    if !CanClaimJob(db, id, nowMs) then db
    else db.(jobs := db.jobs[id := db.jobs[id].(nextAttemptMs := nowMs + leaseMs)])
  }

  /** The batch `ids`, one after the other. */
  function ClaimJobs(db: Tables, ids: seq<nat>, leaseMs: nat, nowMs: int): Tables {
    if ids == [] then db
    else ClaimJob(ClaimJobs(db, ids[..|ids| - 1], leaseMs, nowMs), ids[|ids| - 1], leaseMs, nowMs)
  }

  /** What a worker is handed of a claimed job; the declared amounts and tokens are left out. */
  datatype JobClaim = JobClaim(id: nat, attempts: nat, firstAttemptMs: int, txHash: Option<string>, protocol: string,
                               chainFamily: Chains.ChainFamily, chainId: int, kind: VerifyJob.Kind,
                               clientConfirmedAtMs: Option<int>)

  function JobClaimOf(id: nat, job: Job, row: Activity): JobClaim {
    JobClaim(id, job.attempts, job.firstAttemptMs, row.txHash, row.protocol, row.chainFamily, row.chainId, row.kind,
             row.clientConfirmedAtMs)
  }

  /** The batch's claims: rows of superseded activities use up their place in it and are not handed out. */
  function JobClaims(db: Tables, ids: seq<nat>, nowMs: int): seq<JobClaim> {
    if ids == [] then []
    else
      var claims, id := JobClaims(db, ids[..|ids| - 1], nowMs), ids[|ids| - 1];
      if CanClaimJob(db, id, nowMs) then claims + [JobClaimOf(id, db.jobs[id], db.activities[id])] else claims
  }

  ghost predicate Distinct(ids: seq<nat>) {
    forall i, j | 0 <= i < j < |ids| :: ids[i] != ids[j]
  }

  /** ORDER BY rank LIMIT limit: `ids` are members of `eligible`, as many as the limit allows, and none left out
      ranks before one of them. */
  ghost predicate FirstBy(ids: seq<nat>, eligible: set<nat>, rank: map<nat, int>, limit: nat) {
    && eligible <= rank.Keys && Distinct(ids) && |ids| <= limit && (forall id | id in ids :: id in eligible)
    && (forall i, j | 0 <= i < j < |ids| :: rank[ids[i]] <= rank[ids[j]])
    && (forall other | other in eligible && other !in ids ::
          |ids| == limit && forall id | id in ids :: rank[id] <= rank[other])
  }

  /** The jobs a claim may take: due, and not locked by another worker's claim at this moment. */
  function DueJobs(db: Tables, locked: set<nat>, nowMs: int): set<nat> {
    set id | id in db.jobs && id !in locked && db.jobs[id].nextAttemptMs <= nowMs
  }

  function DueTimes(db: Tables): map<nat, int> {
    map id | id in db.jobs :: db.jobs[id].nextAttemptMs
  }

  function StateAfter(verdict: R.TerminalVerdict): VerificationState {
    match verdict
    case VerifiedFull(_) => VerifiedFull
    case VerifiedBasic(_) => VerifiedBasic
    case Strike(_) => Mismatch
  }

  function BlockTimeOf(verdict: R.TerminalVerdict): Option<int> {
    if verdict.Strike? then None else Some(verdict.blockTimestampMs)
  }

  function FinalizedActivity(row: Activity, verdict: R.TerminalVerdict, nowMs: int): Activity {
    row.(verification := StateAfter(verdict), verifiedAtMs := Some(nowMs), blockTimeMs := BlockTimeOf(verdict))
  }

  /** One more verified activity in its bucket. */
  function AddVerified(aggregates: map<Bucket, Aggregate>, bucket: Bucket, volumeUsd: real): map<Bucket, Aggregate> {
    var was := if bucket in aggregates then aggregates[bucket] else Aggregate(0.0, 0, 0.0);
    aggregates[bucket := was.(volumeUsd := was.volumeUsd + volumeUsd, txCount := was.txCount + 1)]
  }

  function StampedAgent(agent: Agent, nowMs: int): Agent {
    agent.(firstVerifiedMs := Coalesce(agent.firstVerifiedMs, Some(nowMs)))
  }

  function RecordVerifiedSuccess(db: Tables, row: Activity, nowMs: int): Tables
    requires AnchorMs(row).Some?
  {
    db.(agents := if row.agent !in db.agents then db.agents
                  else db.agents[row.agent := StampedAgent(db.agents[row.agent], nowMs)],
        aggregates := AddVerified(db.aggregates, AggregateBucket(row), VolumeContribution(row)))
  }

  function StruckAgent(agent: Agent, shapes: nat, quarantineStrikes: int, nowMs: int): Agent {
    var struck := agent.(strikeCount := agent.strikeCount + 1);
    if shapes < quarantineStrikes then struck
    else struck.(status := Quarantined, quarantinedMs := Coalesce(agent.quarantinedMs, Some(nowMs)))
  }

  function RecordStrike(db: Tables, id: nat, agent: string, reason: R.StrikeReason, quarantineStrikes: int,
                        nowMs: int): Tables {
    var strikes := db.strikes + [StrikeRow(agent, Some(id), Verdict(reason))];
    var independent := |IndependentShapes(strikes, db.activities, agent)|;
    db.(strikes := strikes,
        agents := if agent !in db.agents then db.agents
                  else db.agents[agent := StruckAgent(db.agents[agent], independent, quarantineStrikes, nowMs)])
  }

  function FinalizeVerification(db: Tables, id: nat, verdict: R.TerminalVerdict, quarantineStrikes: int, nowMs: int)
    : Tables
  {
    if id !in db.activities || !db.activities[id].verification.Queued? then db
    else
      var row := FinalizedActivity(db.activities[id], verdict, nowMs);
      var settled := db.(activities := db.activities[id := row], jobs := db.jobs - {id});
      if !verdict.Strike? then RecordVerifiedSuccess(settled, row, nowMs)
      else if IsLaunchShaped(row) then settled
      else RecordStrike(settled, id, row.agent, verdict.reason, quarantineStrikes, nowMs)
  }

  function CloseUnverifiable(db: Tables, id: nat): Tables {
    db.(activities := if id in db.activities && db.activities[id].verification.Queued?
                      then db.activities[id := db.activities[id].(verification := NotQueued)] else db.activities,
        jobs := db.jobs - {id})
  }

  function RescheduleJob(db: Tables, id: nat, delayMs: int, nowMs: int): Tables {
    if id !in db.jobs then db
    else
      var job := db.jobs[id];
      db.(jobs := db.jobs[id := job.(attempts := job.attempts + 1, nextAttemptMs := nowMs + delayMs)])
  }

  function ApplyJobOutcome(db: Tables, id: nat, outcome: VerifyJob.JobOutcome, quarantineStrikes: int, nowMs: int)
    : Tables
  {
    match outcome
    case Reschedule(delayMs, _) => RescheduleJob(db, id, delayMs, nowMs)
    case CloseUnverifiable(_) => CloseUnverifiable(db, id)
    case Finalize(verdict) => FinalizeVerification(db, id, verdict, quarantineStrikes, nowMs)
  }

  // Operators

  predicate CanRetry(db: Tables, id: nat) {
    && id in db.activities && db.activities[id].verification.NotQueued?
    && db.activities[id].status.Confirmed? && db.activities[id].txHash.Some?
  }

  function RetryVerification(db: Tables, id: nat, nowMs: int): Tables {
    if !CanRetry(db, id) then db
    else db.(activities := db.activities[id := db.activities[id].(verification := Queued)],
             jobs := db.jobs[id := Job(0, nowMs, nowMs)])
  }

  predicate CanReopen(db: Tables, id: nat) {
    && id in db.activities && db.activities[id].verification.Mismatch?
    && db.activities[id].status.Confirmed? && db.activities[id].txHash.Some?
  }

  function StrikesWithdrawn(db: Tables, id: nat): nat
    ensures StrikesWithdrawn(db, id) == |db.strikes| - |WithoutActivity(db.strikes, id)|
  {
    WithoutActivityShrinks(db.strikes, id);
    |db.strikes| - |WithoutActivity(db.strikes, id)|
  }

  lemma WithoutActivityShrinks(strikes: seq<StrikeRow>, id: nat)
    ensures |WithoutActivity(strikes, id)| <= |strikes|
  {
  }

  function Less(count: nat, withdrawn: nat): nat {
    if count < withdrawn then 0 else count - withdrawn
  }

  /** The agent after `withdrawn` strikes are taken back, and whether that ends its quarantine. */
  function RestoredAgent(agent: Agent, withdrawn: nat, quarantineStrikes: int): (Agent, bool) {
    var counted := agent.(strikeCount := Less(agent.strikeCount, withdrawn));
    if withdrawn == 0 then (agent, false)
    else if !counted.status.Quarantined? || counted.strikeCount >= quarantineStrikes then (counted, false)
    else (counted.(status := Active, quarantinedMs := None), true)
  }

  function ReopenVerification(db: Tables, id: nat, quarantineStrikes: int, nowMs: int): Tables {
    if !CanReopen(db, id) then db
    else
      var agent, withdrawn := db.activities[id].agent, StrikesWithdrawn(db, id);
      db.(activities := db.activities[id := db.activities[id].(verification := Queued)],
          jobs := db.jobs[id := Job(0, nowMs, nowMs)],
          strikes := WithoutActivity(db.strikes, id) + [StrikeRow(agent, None, OperatorReopen)],
          agents := if agent !in db.agents then db.agents
                    else db.agents[agent := RestoredAgent(db.agents[agent], withdrawn, quarantineStrikes).0])
  }

  function LiftQuarantine(db: Tables, agent: string): Tables {
    if agent !in db.agents || !db.agents[agent].status.Quarantined? then db
    else db.(agents := db.agents[agent := db.agents[agent].(status := Active, strikeCount := 0, quarantinedMs := None)],
             strikes := db.strikes + [StrikeRow(agent, None, OperatorLift)])
  }

  // Pricing

  /** What a pricing pass reads of a row when it claims it; it works from this long after. */
  datatype PricingClaim = PricingClaim(id: nat, eventRole: string, bucket: Bucket, settledAtMs: Option<int>,
                                       attempts: nat)

  predicate CanClaimPricing(db: Tables, id: nat, nowMs: int) {
    && id in db.activities && db.activities[id].pricing.PricingPending? && IsVerified(db.activities[id])
    && (db.activities[id].pricingDueMs.None? || db.activities[id].pricingDueMs.value <= nowMs)
    && AnchorMs(db.activities[id]).Some?
  }

  function PricingClaimOf(id: nat, row: Activity): PricingClaim
    requires AnchorMs(row).Some?
  {
    PricingClaim(id, row.eventRole, AggregateBucket(row), SettledAtMs(row), row.pricingAttempts)
  }

  function ClaimPricing(db: Tables, id: nat, leaseMs: nat, nowMs: int): Tables {
    if !CanClaimPricing(db, id, nowMs) then db
    else db.(activities := db.activities[id := db.activities[id].(pricingDueMs := Some(nowMs + leaseMs))])
  }

  function ClaimPricings(db: Tables, ids: seq<nat>, leaseMs: nat, nowMs: int): Tables {
    if ids == [] then db
    else ClaimPricing(ClaimPricings(db, ids[..|ids| - 1], leaseMs, nowMs), ids[|ids| - 1], leaseMs, nowMs)
  }

  function PricingClaims(db: Tables, ids: seq<nat>, nowMs: int): seq<PricingClaim> {
    if ids == [] then []
    else
      var claims, id := PricingClaims(db, ids[..|ids| - 1], nowMs), ids[|ids| - 1];
      if CanClaimPricing(db, id, nowMs) then claims + [PricingClaimOf(id, db.activities[id])] else claims
  }

  function DuePricings(db: Tables, locked: set<nat>, nowMs: int): set<nat> {
    set id | id in db.activities && id !in locked && CanClaimPricing(db, id, nowMs)
  }

  function OwnIds(db: Tables): map<nat, int> {
    map id | id in db.activities :: id
  }

  /** The volume of a priced activity in its bucket. */
  function AddPricedVolume(aggregates: map<Bucket, Aggregate>, bucket: Bucket, volumeUsd: real)
    : map<Bucket, Aggregate>
  {
    var was := if bucket in aggregates then aggregates[bucket] else Aggregate(0.0, 0, 0.0);
    aggregates[bucket := was.(volumeUsdPriced := was.volumeUsdPriced + volumeUsd)]
  }

  /** What a pass decided for one claim, with the prices read as numbers. */
  datatype PricingWrite = Publish(usdIn: Option<real>, usdOut: Option<real>) | PutBack(delayMs: int) | Exhaust | Abandon

  function InNumbers(usd: Option<string>, numeric: string -> real): Option<real> {
    if usd.None? then None else Some(numeric(usd.value))
  }

  /** The write each outcome comes to; `numeric` is the database's reading of a decimal text. */
  function WriteOf(outcome: PricingDecision.PricingOutcome, numeric: string -> real): PricingWrite {
    match outcome
    case PricedAt(usdIn, usdOut) => Publish(InNumbers(usdIn, numeric), InNumbers(usdOut, numeric))
    case Reschedule(delayMs) => PutBack(delayMs)
    case AttemptsExhausted => Exhaust
    case _ => Abandon
  }

  /** The row a write leaves, whose state is still pending. */
  function PricedActivity(row: Activity, write: PricingWrite, nowMs: int): Activity {
    match write
    case Publish(usdIn, usdOut) => row.(pricing := ServerPriced, usdInPriced := usdIn, usdOutPriced := usdOut,
                                        pricingDueMs := None)
    case PutBack(delayMs) => row.(pricingAttempts := row.pricingAttempts + 1, pricingDueMs := Some(nowMs + delayMs))
    case Exhaust => row.(pricing := Unpriced, pricingAttempts := row.pricingAttempts + 1, pricingDueMs := None)
    case Abandon => row.(pricing := Unpriced, pricingDueMs := None)
  }

  /** The rows after a write that is refused unless its row is still pending. */
  function PricingWritten(activities: map<nat, Activity>, id: nat, write: PricingWrite, nowMs: int)
    : map<nat, Activity>
  {
    if id !in activities || !activities[id].pricing.PricingPending? then activities
    else activities[id := PricedActivity(activities[id], write, nowMs)]
  }

  /** Every write is guarded by the row still being pending, however old the claim is. */
  function ApplyPricing(db: Tables, claim: PricingClaim, write: PricingWrite, nowMs: int): Tables {
    if claim.id !in db.activities || !db.activities[claim.id].pricing.PricingPending? then db
    else
      var row := PricedActivity(db.activities[claim.id], write, nowMs);
      var written := db.(activities := db.activities[claim.id := row]);
      if !write.Publish? then written
      else written.(aggregates := AddPricedVolume(db.aggregates, claim.bucket,
                                                  PricedVolumeOf(claim.eventRole, write.usdIn, write.usdOut)))
  }

  function RequeuedActivity(row: Activity, nowMs: int): Activity {
    row.(pricing := PricingPending, pricingAttempts := 0, pricingDueMs := Some(nowMs))
  }

  predicate RequeueReaches(row: Activity, chainId: Option<int>) {
    row.pricing.Unpriced? && (chainId.None? || row.chainId == chainId.value)
  }

  function RequeueUnpriced(db: Tables, chainId: Option<int>, nowMs: int): Tables {
    db.(activities := map id | id in db.activities ::
                        if RequeueReaches(db.activities[id], chainId) then RequeuedActivity(db.activities[id], nowMs)
                        else db.activities[id])
  }

  // Purge

  function ActivitiesOf(activities: map<nat, Activity>, agent: string): set<nat> {
    set id | id in activities && activities[id].agent == agent
  }

  function WalletsOf(wallets: map<Wallet, string>, agent: string): set<Wallet> {
    set wallet | wallet in wallets && wallets[wallet] == agent
  }

  /** The stamp of the first purge stays. */
  function AgentsPurged(agents: map<string, Agent>, agent: string, nowMs: int): map<string, Agent> {
    if agent !in agents then agents
    else agents[agent := agents[agent].(purgedMs := Coalesce(agents[agent].purgedMs, Some(nowMs)))]
  }

  lemma WithoutAgentShrinks(strikes: seq<StrikeRow>, agent: string)
    ensures var kept := WithoutAgent(strikes, agent);
            |kept| <= |strikes| && (|kept| == |strikes| ==> kept == strikes)
  {
  }

  /** Deleting an activity deletes its job. */
  function PurgeAgent(db: Tables, agent: string, nowMs: int): Tables {
    var gone := ActivitiesOf(db.activities, agent);
    db.(activities := db.activities - gone,
        bySource := map key | key in db.bySource && db.bySource[key] !in gone :: db.bySource[key],
        jobs := db.jobs - gone,
        strikes := WithoutAgent(db.strikes, agent),
        wallets := db.wallets - WalletsOf(db.wallets, agent),
        agents := AgentsPurged(db.agents, agent, nowMs))
  }

  /** A purge changes the database exactly when it deletes an activity, a strike or a wallet, or stamps the agent. */
  lemma PurgeShows(db: Tables, agent: string, nowMs: int)
    ensures PurgeAgent(db, agent, nowMs) != db <==>
            || ActivitiesOf(db.activities, agent) != {}
            || WithoutAgent(db.strikes, agent) != db.strikes
            || WalletsOf(db.wallets, agent) != {}
            || (agent in db.agents && db.agents[agent].purgedMs.None?)
  {
    hide WithoutAgent;
    var after := PurgeAgent(db, agent, nowMs);
    if id :| id in ActivitiesOf(db.activities, agent) {
      assert id in db.activities && id !in after.activities;
    }
    if wallet :| wallet in WalletsOf(db.wallets, agent) {
      assert wallet in db.wallets && wallet !in after.wallets;
    }
    if agent in db.agents && db.agents[agent].purgedMs.None? {
      assert after.agents[agent] != db.agents[agent];
    }
    if ActivitiesOf(db.activities, agent) == {} {
      assert after.activities == db.activities && after.jobs == db.jobs && after.bySource == db.bySource;
    }
  }
}
