/** Which activities can come to be settled when every outcome was resolved from what a worker claimed. */
module Provenance {
  import opened Wrappers
  import opened Activities
  import opened Database
  import opened Protocol
  import opened RowSteps
  import opened VerifyJob
  import Chains
  import R = Receipt

  /** The outcome of a visit to a job of this row, whatever the reader answered and the configuration says; the
      registry is asked for the row's own chain. */
  ghost predicate ResolvedFor(row: Activity, outcome: JobOutcome) {
    exists job: ClaimedJob, config: Config, world: World ::
      && job.kind == row.kind && world.chainTier == Chains.TierOf(row.protocol, row.chainFamily, row.chainId)
      && ResolveJobOutcome(job, config, world) == Ok(outcome)
  }

  ghost predicate HonestStep(db: Tables, step: Step) {
    step.AppliesJobOutcome? && step.id in db.activities ==> ResolvedFor(db.activities[step.id], step.outcome)
  }

  /** A run whose workers apply only what they resolved, however late. */
  ghost predicate Honest(moments: seq<Moment>, quarantineStrikes: int) {
    moments == [] ||
    (&& Honest(moments[..|moments| - 1], quarantineStrikes)
     && HonestStep(Run(moments[..|moments| - 1], quarantineStrikes).db, moments[|moments| - 1].step))
  }

  predicate IsSettled(row: Activity) {
    IsVerified(row) || row.verification.Mismatch?
  }

  /** The registry knows the chain of a settled row, and a full verification is one its chain and kind allow. */
  ghost predicate ChainIsKnown(row: Activity) {
    var tier := Chains.TierOf(row.protocol, row.chainFamily, row.chainId);
    && (IsSettled(row) ==> tier.Some?)
    && (row.verification.VerifiedFull? ==> ResolveVerificationTier(row.kind, tier.value) == Chains.Full)
  }

  ghost predicate ChainsAreKnown(db: Tables) {
    forall id | id in db.activities :: ChainIsKnown(db.activities[id])
  }

  /** Nothing that the registry is asked about, and no verdict, is new. */
  ghost predicate SettlesNothing(was: Activity, now: Activity) {
    && now.kind == was.kind && now.protocol == was.protocol && now.chainFamily == was.chainFamily
    && now.chainId == was.chainId
    && (IsSettled(now) ==> now.verification == was.verification)
  }

  lemma ResolvedVerdictIsAllowed(row: Activity, verdict: R.TerminalVerdict, nowMs: int)
    requires ResolvedFor(row, Finalize(verdict))
    ensures ChainIsKnown(FinalizedActivity(row, verdict, nowMs))
  {
    var job: ClaimedJob, config: Config, world: World :|
      && job.kind == row.kind && world.chainTier == Chains.TierOf(row.protocol, row.chainFamily, row.chainId)
      && ResolveJobOutcome(job, config, world) == Ok(Finalize(verdict));
    if !verdict.Strike? {
      SuccessIsReadFromTheReceipt(job, config, world, verdict);
    }
  }

  /** Only an outcome that finalizes settles a row. */
  lemma OtherStepsSettleNothing(s: System, m: Moment, id: nat)
    requires !(m.step.AppliesJobOutcome? && m.step.outcome.Finalize?)
    requires QueueIsSound(s.db) && RowAfterStep(s, m, id).Some?
    ensures var now := RowAfterStep(s, m, id).value;
            if id in s.db.activities then SettlesNothing(s.db.activities[id], now) else !IsSettled(now)
  {
    assert s.db.nextId !in s.db.activities;
  }

  lemma SettlingNothingKeepsChain(was: Activity, now: Activity)
    requires ChainIsKnown(was) && SettlesNothing(was, now)
    ensures ChainIsKnown(now)
  {
  }

  lemma HonestStepKeepsChain(s: System, m: Moment, id: nat)
    requires ChainsAreKnown(s.db) && HonestStep(s.db, m.step)
    requires QueueIsSound(s.db) && RowAfterStep(s, m, id).Some?
    ensures ChainIsKnown(RowAfterStep(s, m, id).value)
  {
    hide ResolvedFor, SettlesNothing, QueueIsSound, Chains.TierOf;
    if m.step.AppliesJobOutcome? && m.step.outcome.Finalize? {
      if m.step.id == id && s.db.activities[id].verification.Queued? {
        ResolvedVerdictIsAllowed(s.db.activities[id], m.step.outcome.verdict, m.nowMs);
      }
    } else {
      OtherStepsSettleNothing(s, m, id);
      if id in s.db.activities {
        SettlingNothingKeepsChain(s.db.activities[id], RowAfterStep(s, m, id).value);
      }
    }
  }

  /** In every such run the registry resolves the chain of every verified or mismatched activity, so that an event
      on a chain it does not know, which ingest lets through, never gets so far; and a full verification is on a
      chain of the full tier, of no wrap and no launch. */
  lemma {:induction false} SettledOnKnownChains(moments: seq<Moment>, quarantineStrikes: int)
    requires Honest(moments, quarantineStrikes)
    ensures ChainsAreKnown(Run(moments, quarantineStrikes).db)
  {
    hide ChainIsKnown, HonestStep, QueueIsSound, TablesAfter, RowAfterStep, JobAfterStep;
    if moments != [] {
      var earlier := moments[..|moments| - 1];
      SettledOnKnownChains(earlier, quarantineStrikes);
      var was, m := Run(earlier, quarantineStrikes), moments[|moments| - 1];
      var after := TablesAfter(was, m, quarantineStrikes);
      QueueStaysConsistent(earlier, quarantineStrikes);
      forall id | id in after.activities
        ensures ChainIsKnown(after.activities[id])
      {
        StepOnRow(was, m, quarantineStrikes, id);
        HonestStepKeepsChain(was, m, id);
      }
    }
  }
}
