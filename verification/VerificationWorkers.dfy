/** How often a job is retried when several verification workers share the queue
    (apps/server/src/worker/loop.ts). */
module VerificationWorkers {
  import opened Wrappers
  import opened Activities
  import opened Database
  import opened Protocol
  import opened RowSteps
  import opened VerifyJob
  import Backoff
  import V = VerificationRuns

  /** A moment, and the worker whose step it is; steps other than those of verification have none. */
  datatype Doing = Doing(moment: Moment, worker: nat)

  /** What a worker claimed and has not written back; `stale` once the job it claimed was gone, so that the job the
      activity has now, if any, is another one. */
  datatype Held = Held(hold: V.Hold, stale: bool)

  /** The system, what each worker holds of each activity, how often each job was claimed within the maximum age, and
      the clock. */
  datatype Watched = Watched(system: System, held: map<(nat, nat), Held>, claims: map<nat, nat>, nowMs: int)

  datatype Terms = Terms(workers: nat, config: Config, quarantineStrikes: int, startMs: int)

  /** A worker writes back only what it holds, resolved from that; leases last a second at least; the clock goes
      forward. */
  ghost predicate IsDisciplined(w: Watched, doing: Doing, terms: Terms) {
    && w.nowMs <= doing.moment.nowMs
    && match doing.moment.step
       case ClaimsJob(_, leaseMs) => doing.worker < terms.workers && leaseMs >= Backoff.SECOND_MS
       case AppliesJobOutcome(id, outcome) =>
         && doing.worker < terms.workers && (doing.worker, id) in w.held
         && V.ResolvedFrom(w.held[(doing.worker, id)].hold, outcome, terms.config, doing.moment.nowMs)
       case _ => true
  }

  function HeldAfter(w: Watched, doing: Doing): map<(nat, nat), Held> {
    var held := map key | key in w.held :: w.held[key].(stale := w.held[key].stale || key.1 !in w.system.db.jobs);
    match doing.moment.step
    case ClaimsJob(id, _) =>
      if !CanClaimJob(w.system.db, id, doing.moment.nowMs) then held
      else
        var job := w.system.db.jobs[id];
        held[(doing.worker, id) := Held(V.Hold(job.attempts, job.firstAttemptMs, doing.moment.nowMs), false)]
    case AppliesJobOutcome(id, _) => held - {(doing.worker, id)}
    case _ => held
  }

  /** The last moment at which a visit may still put the job back. */
  function UntilMs(firstAttemptMs: int, config: Config): int {
    firstAttemptMs + config.maxAgeDays * Backoff.DAY_MS
  }

  function ClaimsOf(w: Watched, id: nat): nat {
    if id in w.claims then w.claims[id] else 0
  }

  function ClaimsAfterFor(w: Watched, m: Moment, id: nat, config: Config): nat {
    if id !in w.system.db.jobs then 0
    else if && m.step.ClaimsJob? && m.step.id == id && CanClaimJob(w.system.db, id, m.nowMs)
            && m.nowMs <= UntilMs(w.system.db.jobs[id].firstAttemptMs, config)
    then ClaimsOf(w, id) + 1
    else ClaimsOf(w, id)
  }

  function NextWatched(w: Watched, doing: Doing, terms: Terms): Watched {
    var after := Next(w.system, doing.moment, terms.quarantineStrikes);
    Watched(after, HeldAfter(w, doing),
            map id | id in after.db.jobs :: ClaimsAfterFor(w, doing.moment, id, terms.config), doing.moment.nowMs)
  }

  function Watch(doings: seq<Doing>, terms: Terms): Watched {
    if doings == [] then Watched(START, map[], map[], terms.startMs)
    else NextWatched(Watch(doings[..|doings| - 1], terms), doings[|doings| - 1], terms)
  }

  ghost predicate Disciplined(doings: seq<Doing>, terms: Terms) {
    doings == [] ||
    (&& Disciplined(doings[..|doings| - 1], terms)
     && IsDisciplined(Watch(doings[..|doings| - 1], terms), doings[|doings| - 1], terms))
  }

  function MomentsOf(doings: seq<Doing>): seq<Moment> {
    if doings == [] then [] else MomentsOf(doings[..|doings| - 1]) + [doings[|doings| - 1].moment]
  }

  lemma {:induction false} WatchIsRun(doings: seq<Doing>, terms: Terms)
    ensures Watch(doings, terms).system == Run(MomentsOf(doings), terms.quarantineStrikes)
  {
    if doings != [] {
      WatchIsRun(doings[..|doings| - 1], terms);
      assert MomentsOf(doings)[..|MomentsOf(doings)| - 1] == MomentsOf(doings[..|doings| - 1]);
    }
  }

  // Writes still to come

  /** Whether what a worker holds of the activity may still put its job back. */
  function MayPutBack(held: map<(nat, nat), Held>, worker: nat, id: nat, untilMs: int): nat {
    if (worker, id) in held && (held[(worker, id)].stale || held[(worker, id)].hold.claimedMs <= untilMs) then 1 else 0
  }

  /** How many of the first `n` workers may. */
  function Outstanding(held: map<(nat, nat), Held>, n: nat, id: nat, untilMs: int): nat {
    if n == 0 then 0 else Outstanding(held, n - 1, id, untilMs) + MayPutBack(held, n - 1, id, untilMs)
  }

  lemma {:induction false} OutstandingMoves(held: map<(nat, nat), Held>, after: map<(nat, nat), Held>, n: nat, id: nat,
                                            untilMs: int, worker: nat)
    requires forall k: nat | k < n && k != worker ::
               MayPutBack(after, k, id, untilMs) == MayPutBack(held, k, id, untilMs)
    ensures Outstanding(after, n, id, untilMs)
            == Outstanding(held, n, id, untilMs)
               + if worker >= n then 0
                 else MayPutBack(after, worker, id, untilMs) - MayPutBack(held, worker, id, untilMs)
  {
    if n > 0 {
      OutstandingMoves(held, after, n - 1, id, untilMs, worker);
    }
  }

  lemma {:induction false} OutstandingIsFewer(held: map<(nat, nat), Held>, n: nat, id: nat, untilMs: int, free: nat)
    requires (free, id) !in held
    ensures Outstanding(held, n, id, untilMs) <= if free < n then n - 1 else n
  {
    if n > 0 {
      OutstandingIsFewer(held, n - 1, id, untilMs, free);
    }
  }

  // The invariant

  /** Attempts and writes still to come are no more than the claims made in time, but for what the other workers may
      hold of an earlier job; each claim moves the due time on by a second. */
  ghost predicate JobIsCounted(job: Job, claims: nat, outstanding: nat, nowMs: int, terms: Terms) {
    && job.attempts + outstanding <= claims + terms.workers - 1
    && job.firstAttemptMs + claims * Backoff.SECOND_MS <= job.nextAttemptMs
    && job.firstAttemptMs + (claims - 1) * Backoff.SECOND_MS <= nowMs
    && (claims >= 1 ==> (claims - 1) * Backoff.SECOND_MS <= terms.config.maxAgeDays * Backoff.DAY_MS)
  }

  ghost predicate IsCounted(w: Watched, id: nat, terms: Terms)
    requires id in w.system.db.jobs
  {
    var job := w.system.db.jobs[id];
    JobIsCounted(job, ClaimsOf(w, id),
                 Outstanding(w.held, terms.workers, id, UntilMs(job.firstAttemptMs, terms.config)), w.nowMs, terms)
  }

  /** What is held has a given-out id, and if it is not stale it is of the job the activity has. */
  ghost predicate HeldIsKnown(held: Held, id: nat, db: Tables) {
    && id < db.nextId
    && (!held.stale && id in db.jobs ==> held.hold.firstAttemptMs == db.jobs[id].firstAttemptMs)
  }

  /** Somebody holds nothing of an activity without a job: the one who finished it, or everybody. */
  ghost predicate SomebodyIsFree(held: map<(nat, nat), Held>, id: nat, workers: nat) {
    exists k: nat | k < workers :: (k, id) !in held
  }

  ghost predicate RunIsCounted(w: Watched, terms: Terms) {
    && (forall id | id in w.system.db.jobs :: IsCounted(w, id, terms))
    && (forall key | key in w.held :: HeldIsKnown(w.held[key], key.1, w.system.db))
    && (forall id | id in w.system.db.activities && id !in w.system.db.jobs ::
          SomebodyIsFree(w.held, id, terms.workers))
  }

  lemma RescheduleCounts(held: Held, job: Job, outcome: JobOutcome, terms: Terms, nowMs: int)
    requires V.ResolvedFrom(held.hold, outcome, terms.config, nowMs) && outcome.Reschedule?
    requires PositiveConfig(terms.config)
    requires held.stale || held.hold.firstAttemptMs == job.firstAttemptMs
    ensures held.stale || held.hold.claimedMs <= UntilMs(job.firstAttemptMs, terms.config)
    ensures outcome.delayMs >= Backoff.SECOND_MS
  {
    var claimed: ClaimedJob, world: World :|
      && claimed.attempts == held.hold.attempts && claimed.firstAttemptMs == held.hold.firstAttemptMs
      && held.hold.claimedMs <= world.nowMs <= nowMs
      && ResolveJobOutcome(claimed, terms.config, world) == Ok(outcome);
    ExpiredJobFinishes(claimed, terms.config, world);
  }

  predicate ClaimsIt(w: Watched, m: Moment, id: nat) {
    m.step.ClaimsJob? && m.step.id == id && CanClaimJob(w.system.db, id, m.nowMs)
  }

  predicate WritesItBack(m: Moment, id: nat) {
    m.step.AppliesJobOutcome? && m.step.id == id
  }

  /** While an activity has a job, a claim of it fills the worker's own hold and a write back empties it. */
  lemma HeldMoves(w: Watched, doing: Doing, id: nat, untilMs: int, worker: nat)
    requires id in w.system.db.jobs
    ensures MayPutBack(HeldAfter(w, doing), worker, id, untilMs)
            == if worker == doing.worker && ClaimsIt(w, doing.moment, id) then
                 if doing.moment.nowMs <= untilMs then 1 else 0
               else if worker == doing.worker && WritesItBack(doing.moment, id) then 0
               else MayPutBack(w.held, worker, id, untilMs)
  {
  }

  lemma OutstandingAfter(w: Watched, doing: Doing, id: nat, untilMs: int, n: nat)
    requires id in w.system.db.jobs
    ensures var before, after := Outstanding(w.held, n, id, untilMs), Outstanding(HeldAfter(w, doing), n, id, untilMs);
            && after <= before + (if ClaimsIt(w, doing.moment, id) && doing.moment.nowMs <= untilMs then 1 else 0)
            && (WritesItBack(doing.moment, id) && doing.worker < n ==>
                  after == before - MayPutBack(w.held, doing.worker, id, untilMs))
  {
    hide HeldAfter, CanClaimJob;
    forall k: nat
      ensures k != doing.worker ==>
                MayPutBack(HeldAfter(w, doing), k, id, untilMs) == MayPutBack(w.held, k, id, untilMs)
    {
      HeldMoves(w, doing, id, untilMs, k);
    }
    HeldMoves(w, doing, id, untilMs, doing.worker);
    OutstandingMoves(w.held, HeldAfter(w, doing), n, id, untilMs, doing.worker);
  }

  lemma JobAppears(w: Watched, doing: Doing, id: nat, terms: Terms)
    requires RunIsCounted(w, terms) && QueueIsSound(w.system.db) && terms.workers >= 1
    requires id !in w.system.db.jobs && JobAfterStep(w.system, doing.moment, id).Some?
    ensures var job := JobAfterStep(w.system, doing.moment, id).value;
            JobIsCounted(job, ClaimsAfterFor(w, doing.moment, id, terms.config),
                         Outstanding(HeldAfter(w, doing), terms.workers, id, UntilMs(job.firstAttemptMs, terms.config)),
                         doing.moment.nowMs, terms)
  {
    hide QueueIsSound, JobAfterStep;
    V.NewJobsAreFresh(w.system, doing.moment, id);
    var free: nat := 0;
    if id in w.system.db.activities {
      free :| free < terms.workers && (free, id) !in w.held;
    }
    assert (free, id) !in w.held;
    OutstandingIsFewer(HeldAfter(w, doing), terms.workers, id,
                       UntilMs(doing.moment.nowMs, terms.config), free);
  }

  lemma ClaimedJobIsCounted(w: Watched, doing: Doing, id: nat, terms: Terms)
    requires RunIsCounted(w, terms) && IsDisciplined(w, doing, terms)
    requires id in w.system.db.jobs && ClaimsIt(w, doing.moment, id)
    ensures var job := w.system.db.jobs[id].(nextAttemptMs := doing.moment.nowMs + doing.moment.step.leaseMs);
            JobIsCounted(job, ClaimsAfterFor(w, doing.moment, id, terms.config),
                         Outstanding(HeldAfter(w, doing), terms.workers, id, UntilMs(job.firstAttemptMs, terms.config)),
                         doing.moment.nowMs, terms)
  {
    hide HeldAfter, Outstanding;
    assert IsCounted(w, id, terms);
    OutstandingAfter(w, doing, id, UntilMs(w.system.db.jobs[id].firstAttemptMs, terms.config), terms.workers);
  }

  lemma PutBackJobIsCounted(w: Watched, doing: Doing, id: nat, terms: Terms)
    requires RunIsCounted(w, terms) && IsDisciplined(w, doing, terms) && PositiveConfig(terms.config)
    requires id in w.system.db.jobs && WritesItBack(doing.moment, id) && doing.moment.step.outcome.Reschedule?
    ensures var was, dueMs := w.system.db.jobs[id], doing.moment.nowMs + doing.moment.step.outcome.delayMs;
            var job := Job(was.attempts + 1, was.firstAttemptMs, dueMs);
            JobIsCounted(job, ClaimsAfterFor(w, doing.moment, id, terms.config),
                         Outstanding(HeldAfter(w, doing), terms.workers, id, UntilMs(job.firstAttemptMs, terms.config)),
                         doing.moment.nowMs, terms)
  {
    hide HeldAfter, Outstanding, V.ResolvedFrom, PositiveConfig;
    var job, held := w.system.db.jobs[id], w.held[(doing.worker, id)];
    assert IsCounted(w, id, terms);
    assert HeldIsKnown(held, id, w.system.db);
    RescheduleCounts(held, job, doing.moment.step.outcome, terms, doing.moment.nowMs);
    OutstandingAfter(w, doing, id, UntilMs(job.firstAttemptMs, terms.config), terms.workers);
  }

  lemma QuietJobIsCounted(w: Watched, doing: Doing, id: nat, terms: Terms)
    requires RunIsCounted(w, terms) && QueueIsSound(w.system.db) && IsDisciplined(w, doing, terms)
    requires id in w.system.db.jobs && JobAfterStep(w.system, doing.moment, id).Some?
    requires !ClaimsIt(w, doing.moment, id)
    requires WritesItBack(doing.moment, id) ==> !doing.moment.step.outcome.Reschedule?
    ensures var job := JobAfterStep(w.system, doing.moment, id).value;
            JobIsCounted(job, ClaimsAfterFor(w, doing.moment, id, terms.config),
                         Outstanding(HeldAfter(w, doing), terms.workers, id, UntilMs(job.firstAttemptMs, terms.config)),
                         doing.moment.nowMs, terms)
  {
    hide HeldAfter, Outstanding, JobAfterStep, QueueIsSound, V.ResolvedFrom;
    assert IsCounted(w, id, terms);
    V.KnownJobsStay(w.system, doing.moment, id);
    OutstandingAfter(w, doing, id, UntilMs(w.system.db.jobs[id].firstAttemptMs, terms.config), terms.workers);
  }

  lemma JobStaysCounted(w: Watched, doing: Doing, id: nat, terms: Terms)
    requires RunIsCounted(w, terms) && QueueIsSound(w.system.db) && IsDisciplined(w, doing, terms)
    requires PositiveConfig(terms.config) && terms.workers >= 1
    requires JobAfterStep(w.system, doing.moment, id).Some?
    ensures var job := JobAfterStep(w.system, doing.moment, id).value;
            JobIsCounted(job, ClaimsAfterFor(w, doing.moment, id, terms.config),
                         Outstanding(HeldAfter(w, doing), terms.workers, id, UntilMs(job.firstAttemptMs, terms.config)),
                         doing.moment.nowMs, terms)
  {
    hide RunIsCounted, QueueIsSound, IsDisciplined, PositiveConfig, JobIsCounted, ClaimsAfterFor, HeldAfter,
      Outstanding;
    if id !in w.system.db.jobs {
      JobAppears(w, doing, id, terms);
    } else if ClaimsIt(w, doing.moment, id) {
      ClaimedJobIsCounted(w, doing, id, terms);
    } else if WritesItBack(doing.moment, id) && doing.moment.step.outcome.Reschedule? {
      PutBackJobIsCounted(w, doing, id, terms);
    } else {
      QuietJobIsCounted(w, doing, id, terms);
    }
  }

  /** A row without a job had none before, or its job was just finished by a worker that now holds nothing of it. */
  lemma SomebodyStaysFree(w: Watched, doing: Doing, id: nat, terms: Terms)
    requires RunIsCounted(w, terms) && QueueIsSound(w.system.db) && IsDisciplined(w, doing, terms) && terms.workers >= 1
    requires RowAfterStep(w.system, doing.moment, id).Some? && JobAfterStep(w.system, doing.moment, id).None?
    ensures SomebodyIsFree(HeldAfter(w, doing), id, terms.workers)
  {
    hide V.ResolvedFrom;
    if id in w.system.db.jobs {
      assert doing.moment.step.AppliesJobOutcome? && doing.moment.step.id == id;
      assert (doing.worker, id) !in HeldAfter(w, doing);
    } else if id in w.system.db.activities {
      var free: nat :| free < terms.workers && (free, id) !in w.held;
      assert (free, id) !in HeldAfter(w, doing);
    } else {
      assert id == w.system.db.nextId;
      assert (0, id) !in w.held;
      assert (0, id) !in HeldAfter(w, doing);
    }
  }

  lemma HeldStaysKnown(w: Watched, doing: Doing, key: (nat, nat), terms: Terms)
    requires RunIsCounted(w, terms) && QueueIsSound(w.system.db) && key in HeldAfter(w, doing)
    ensures HeldIsKnown(HeldAfter(w, doing)[key], key.1, TablesAfter(w.system, doing.moment, terms.quarantineStrikes))
  {
    hide TablesAfter, RowAfterStep, JobAfterStep, IsCounted;
    var id := key.1;
    NextIdGrows(w.system, doing.moment, terms.quarantineStrikes);
    StepOnRow(w.system, doing.moment, terms.quarantineStrikes, id);
    if id in w.system.db.jobs && JobAfterStep(w.system, doing.moment, id).Some? {
      V.KnownJobsStay(w.system, doing.moment, id);
    }
  }

  lemma {:induction false} RunsAreCounted(doings: seq<Doing>, terms: Terms)
    requires Disciplined(doings, terms) && PositiveConfig(terms.config) && terms.workers >= 1
    ensures RunIsCounted(Watch(doings, terms), terms)
  {
    hide JobIsCounted, HeldIsKnown, SomebodyIsFree, IsDisciplined, PositiveConfig, QueueIsSound, TablesAfter,
      JobAfterStep, RowAfterStep, HeldAfter, ClaimsAfterFor, Outstanding;
    if doings != [] {
      var earlier, doing := doings[..|doings| - 1], doings[|doings| - 1];
      var w, after := Watch(earlier, terms), Watch(doings, terms);
      RunsAreCounted(earlier, terms);
      WatchIsRun(earlier, terms);
      QueueStaysConsistent(MomentsOf(earlier), terms.quarantineStrikes);
      forall id | id in after.system.db.jobs
        ensures IsCounted(after, id, terms)
      {
        StepOnRow(w.system, doing.moment, terms.quarantineStrikes, id);
        JobStaysCounted(w, doing, id, terms);
      }
      forall key | key in after.held
        ensures HeldIsKnown(after.held[key], key.1, after.system.db)
      {
        HeldStaysKnown(w, doing, key, terms);
      }
      forall id | id in after.system.db.activities && id !in after.system.db.jobs
        ensures SomebodyIsFree(after.held, id, terms.workers)
      {
        StepOnRow(w.system, doing.moment, terms.quarantineStrikes, id);
        SomebodyStaysFree(w, doing, id, terms);
      }
    }
  }

  /** In every run of any number of workers whose leases last a second or more, on a clock that goes forward, a job has
      been put back since it was enqueued at most as often as claims a second apart fit in the maximum age, and once
      more for each other worker: all but so many retries are spread over that age. */
  lemma RetriesAreBounded(doings: seq<Doing>, terms: Terms, id: nat)
    requires Disciplined(doings, terms) && PositiveConfig(terms.config) && terms.workers >= 1
    requires id in Run(MomentsOf(doings), terms.quarantineStrikes).db.jobs
    ensures var job := Run(MomentsOf(doings), terms.quarantineStrikes).db.jobs[id];
            job.attempts >= terms.workers ==>
              (job.attempts - terms.workers) * Backoff.SECOND_MS <= terms.config.maxAgeDays * Backoff.DAY_MS
  {
    hide Disciplined, Run, Watch;
    RunsAreCounted(doings, terms);
    WatchIsRun(doings, terms);
    assert IsCounted(Watch(doings, terms), id, terms);
  }
}
