/** How long a job is retried in a run of the whole system with one verification worker
    (apps/server/src/worker/loop.ts). */
module VerificationRuns {
  import opened Wrappers
  import opened Activities
  import opened Database
  import opened Protocol
  import opened RowSteps
  import opened VerifyJob
  import Backoff

  /** A job the worker has claimed and not yet written back. */
  datatype Hold = Hold(attempts: nat, firstAttemptMs: int, claimedMs: int)

  /** The delays written for a job since it was enqueued: their sum, and the last one. */
  datatype Waits = Waits(totalMs: int, lastMs: int)

  datatype Watched = Watched(system: System, holds: map<nat, Hold>, waits: map<nat, Waits>)

  /** The outcome is resolved from what was claimed, by a clock read between the claim and the write. */
  ghost predicate ResolvedFrom(hold: Hold, outcome: JobOutcome, config: Config, nowMs: int) {
    exists job: ClaimedJob, world: World ::
      && job.attempts == hold.attempts && job.firstAttemptMs == hold.firstAttemptMs
      && hold.claimedMs <= world.nowMs <= nowMs
      && ResolveJobOutcome(job, config, world) == Ok(outcome)
  }

  ghost predicate IsDisciplined(w: Watched, m: Moment, config: Config) {
    m.step.AppliesJobOutcome? ==>
      m.step.id in w.holds && ResolvedFrom(w.holds[m.step.id], m.step.outcome, config, m.nowMs)
  }

  function HoldsAfter(w: Watched, m: Moment): map<nat, Hold> {
    match m.step
    case ClaimsJob(id, _) =>
      if !CanClaimJob(w.system.db, id, m.nowMs) then w.holds
      else w.holds[id := Hold(w.system.db.jobs[id].attempts, w.system.db.jobs[id].firstAttemptMs, m.nowMs)]
    case AppliesJobOutcome(id, _) => w.holds - {id}
    case _ => w.holds
  }

  function WaitsOf(w: Watched, id: nat): Waits {
    if id in w.waits then w.waits[id] else Waits(0, 0)
  }

  /** A job that appears starts to wait anew. */
  function WaitsAfterFor(w: Watched, m: Moment, id: nat): Waits {
    if id !in w.system.db.jobs then Waits(0, 0)
    else if m.step.AppliesJobOutcome? && m.step.id == id && m.step.outcome.Reschedule?
    then Waits(WaitsOf(w, id).totalMs + m.step.outcome.delayMs, m.step.outcome.delayMs)
    else WaitsOf(w, id)
  }

  function NextWatched(w: Watched, m: Moment, quarantineStrikes: int): Watched {
    var after := Next(w.system, m, quarantineStrikes);
    Watched(after, HoldsAfter(w, m), map id | id in after.db.jobs :: WaitsAfterFor(w, m, id))
  }

  function Watch(moments: seq<Moment>, quarantineStrikes: int): Watched {
    if moments == [] then Watched(START, map[], map[])
    else NextWatched(Watch(moments[..|moments| - 1], quarantineStrikes), moments[|moments| - 1], quarantineStrikes)
  }

  /** The one worker writes back each claim at most once, and only what it resolved from it. */
  ghost predicate Disciplined(moments: seq<Moment>, config: Config, quarantineStrikes: int) {
    moments == [] ||
    (&& Disciplined(moments[..|moments| - 1], config, quarantineStrikes)
     && IsDisciplined(Watch(moments[..|moments| - 1], quarantineStrikes), moments[|moments| - 1], config))
  }

  lemma {:induction false} WatchIsRun(moments: seq<Moment>, quarantineStrikes: int)
    ensures Watch(moments, quarantineStrikes).system == Run(moments, quarantineStrikes)
  {
    if moments != [] {
      WatchIsRun(moments[..|moments| - 1], quarantineStrikes);
    }
  }

  /** A job is due no earlier than its delays after its first attempt, and every delay but the last was written
      within the maximum age. */
  ghost predicate IsTimely(job: Job, waits: Waits, config: Config) {
    && job.firstAttemptMs + waits.totalMs <= job.nextAttemptMs
    && (if job.attempts == 0 then waits == Waits(0, 0)
        else
          && (job.attempts - 1) * Backoff.SECOND_MS
             <= waits.totalMs - waits.lastMs <= config.maxAgeDays * Backoff.DAY_MS
          && waits.lastMs >= Backoff.SECOND_MS)
  }

  /** What the worker holds of an activity that is still there is its job as it is, claimed when it was due. */
  ghost predicate HoldIsCurrent(hold: Hold, id: nat, db: Tables, waits: Waits) {
    && id < db.nextId
    && (id in db.activities ==>
          && id in db.jobs && hold.attempts == db.jobs[id].attempts && hold.firstAttemptMs == db.jobs[id].firstAttemptMs
          && hold.firstAttemptMs + waits.totalMs <= hold.claimedMs)
  }

  ghost predicate RunIsTimely(w: Watched, config: Config) {
    && (forall id | id in w.system.db.jobs :: IsTimely(w.system.db.jobs[id], WaitsOf(w, id), config))
    && (forall id | id in w.holds :: HoldIsCurrent(w.holds[id], id, w.system.db, WaitsOf(w, id)))
  }

  lemma RescheduleIsTimely(job: Job, waits: Waits, hold: Hold, outcome: JobOutcome, config: Config, nowMs: int)
    requires IsTimely(job, waits, config) && PositiveConfig(config)
    requires ResolvedFrom(hold, outcome, config, nowMs) && outcome.Reschedule?
    requires hold.firstAttemptMs == job.firstAttemptMs && hold.firstAttemptMs + waits.totalMs <= hold.claimedMs
    ensures IsTimely(Job(job.attempts + 1, job.firstAttemptMs, nowMs + outcome.delayMs),
                     Waits(waits.totalMs + outcome.delayMs, outcome.delayMs), config)
  {
    var claimed: ClaimedJob, world: World :|
      && claimed.attempts == hold.attempts && claimed.firstAttemptMs == hold.firstAttemptMs
      && hold.claimedMs <= world.nowMs <= nowMs
      && ResolveJobOutcome(claimed, config, world) == Ok(outcome);
    ExpiredJobFinishes(claimed, config, world);
  }

  /** A job that a step finds absent and leaves present is fresh. */
  lemma NewJobsAreFresh(s: System, m: Moment, id: nat)
    requires QueueIsSound(s.db) && id !in s.db.jobs && JobAfterStep(s, m, id).Some?
    ensures JobAfterStep(s, m, id) == Some(Job(0, m.nowMs, m.nowMs))
    ensures id in s.db.activities || id == s.db.nextId
  {
  }

  lemma KnownJobsStay(s: System, m: Moment, id: nat)
    requires QueueIsSound(s.db) && id in s.db.jobs && JobAfterStep(s, m, id).Some?
    ensures var job, now := s.db.jobs[id], JobAfterStep(s, m, id).value;
            && now.firstAttemptMs == job.firstAttemptMs
            && if m.step.AppliesJobOutcome? && m.step.id == id && m.step.outcome.Reschedule?
               then now == Job(job.attempts + 1, job.firstAttemptMs, m.nowMs + m.step.outcome.delayMs)
               else now.attempts == job.attempts && now.nextAttemptMs >= job.nextAttemptMs
  {
  }

  lemma JobStaysTimely(w: Watched, m: Moment, config: Config, id: nat)
    requires RunIsTimely(w, config) && QueueIsSound(w.system.db) && PositiveConfig(config)
    requires IsDisciplined(w, m, config)
    requires JobAfterStep(w.system, m, id).Some?
    ensures IsTimely(JobAfterStep(w.system, m, id).value, WaitsAfterFor(w, m, id), config)
  {
    hide ResolvedFrom, PositiveConfig, JobAfterStep;
    if id !in w.system.db.jobs {
      NewJobsAreFresh(w.system, m, id);
    } else {
      KnownJobsStay(w.system, m, id);
      if m.step.AppliesJobOutcome? && m.step.id == id && m.step.outcome.Reschedule? {
        assert id in w.system.db.activities;
        RescheduleIsTimely(w.system.db.jobs[id], WaitsOf(w, id), w.holds[id], m.step.outcome, config, m.nowMs);
      }
    }
  }

  /** Rows come only under new ids, and a job whose claim is out stays as long as its row. */
  lemma HeldJobsStay(s: System, m: Moment, id: nat)
    requires QueueIsSound(s.db) && RowAfterStep(s, m, id).Some?
    requires id < s.db.nextId && !(m.step.AppliesJobOutcome? && m.step.id == id)
    ensures id in s.db.activities
    ensures id in s.db.jobs ==> JobAfterStep(s, m, id).Some?
  {
  }

  lemma HoldStaysCurrent(w: Watched, m: Moment, config: Config, quarantineStrikes: int, id: nat)
    requires RunIsTimely(w, config) && QueueIsSound(w.system.db)
    requires id in HoldsAfter(w, m)
    ensures HoldIsCurrent(HoldsAfter(w, m)[id], id, TablesAfter(w.system, m, quarantineStrikes),
                          WaitsAfterFor(w, m, id))
  {
    hide JobAfterStep, RowAfterStep, TablesAfter;
    StepOnRow(w.system, m, quarantineStrikes, id);
    NextIdGrows(w.system, m, quarantineStrikes);
    if RowAfterStep(w.system, m, id).Some? {
      assert id < w.system.db.nextId;
      HeldJobsStay(w.system, m, id);
      if id in w.system.db.jobs {
        KnownJobsStay(w.system, m, id);
      }
    }
  }

  lemma {:induction false} RunsAreTimely(moments: seq<Moment>, config: Config, quarantineStrikes: int)
    requires Disciplined(moments, config, quarantineStrikes) && PositiveConfig(config)
    ensures RunIsTimely(Watch(moments, quarantineStrikes), config)
  {
    hide IsTimely, HoldIsCurrent, IsDisciplined, PositiveConfig, QueueIsSound, TablesAfter, JobAfterStep, RowAfterStep,
      HoldsAfter, WaitsAfterFor;
    if moments != [] {
      var earlier, m := moments[..|moments| - 1], moments[|moments| - 1];
      var w, after := Watch(earlier, quarantineStrikes), Watch(moments, quarantineStrikes);
      RunsAreTimely(earlier, config, quarantineStrikes);
      WatchIsRun(earlier, quarantineStrikes);
      QueueStaysConsistent(earlier, quarantineStrikes);
      forall id | id in after.system.db.jobs
        ensures IsTimely(after.system.db.jobs[id], WaitsOf(after, id), config)
      {
        StepOnRow(w.system, m, quarantineStrikes, id);
        JobStaysTimely(w, m, config, id);
      }
      forall id | id in after.holds
        ensures HoldIsCurrent(after.holds[id], id, after.system.db, WaitsOf(after, id))
      {
        HoldStaysCurrent(w, m, config, quarantineStrikes, id);
        HoldWithoutJob(after.holds[id], id, after.system.db, WaitsAfterFor(w, m, id), WaitsOf(after, id));
      }
    }
  }

  lemma HoldWithoutJob(hold: Hold, id: nat, db: Tables, waits: Waits, other: Waits)
    requires HoldIsCurrent(hold, id, db, waits) && (id in db.jobs ==> other == waits)
    ensures HoldIsCurrent(hold, id, db, other)
  {
  }

  /** In every run with one verification worker and positive schedules, whatever the reader answers, whether or not
      the chain is known and however long claims take, the delays written for a job before its last retry sum to at
      most the maximum age; so a job is never retried more often than that leaves room for. */
  lemma RetriesFitInTheWindow(moments: seq<Moment>, config: Config, quarantineStrikes: int, id: nat)
    requires Disciplined(moments, config, quarantineStrikes) && PositiveConfig(config)
    requires id in Run(moments, quarantineStrikes).db.jobs
    ensures var job := Run(moments, quarantineStrikes).db.jobs[id];
            var waits := WaitsOf(Watch(moments, quarantineStrikes), id);
            && waits.totalMs - waits.lastMs <= (if job.attempts == 0 then 0 else config.maxAgeDays * Backoff.DAY_MS)
            && (job.attempts > 0 ==> (job.attempts - 1) * Backoff.SECOND_MS <= config.maxAgeDays * Backoff.DAY_MS)
            && job.firstAttemptMs + waits.totalMs <= job.nextAttemptMs
  {
    hide Disciplined, Watch, Run;
    RunsAreTimely(moments, config, quarantineStrikes);
    WatchIsRun(moments, quarantineStrikes);
  }
}
