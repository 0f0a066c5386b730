/** What a live row says it was told is what was ingested for it, whatever else happened in between. */
module Ingestion {
  import opened Wrappers
  import opened Activities
  import opened Database
  import opened Protocol
  import Chains
  import VerifyJob
  import R = Receipt

  /** The fields of a row that only ingest writes. */
  datatype Told = Told(agent: string, sourceRow: string, kind: VerifyJob.Kind, eventRole: string, protocol: string,
                       chainFamily: Chains.ChainFamily, chainId: int, status: EventStatus,
                       statusesSeen: seq<EventStatus>, txHash: Option<string>, usdInEst: Option<real>,
                       clientConfirmedAtMs: Option<int>)

  function ToldOf(row: Activity): Told {
    Told(row.agent, row.sourceRow, row.kind, row.eventRole, row.protocol, row.chainFamily, row.chainId, row.status,
         row.statusesSeen, row.txHash, row.usdInEst, row.clientConfirmedAtMs)
  }

  /** The row an event is for: the one its source row already has, or the next one to be inserted. */
  function TargetOf(db: Tables, step: Step): Option<nat> {
    if !step.Ingests? || step.agent !in db.agents then None
    else Some(ExistingRow(db, step.agent, step.event.sourceRow).GetOr(db.nextId))
  }

  function TargetRow(db: Tables, step: Step): Option<Activity>
    requires step.Ingests?
  {
    var existing := ExistingRow(db, step.agent, step.event.sourceRow);
    if existing.None? then None else Some(db.activities[existing.value])
  }

  /** The events of the run that were for a given row, in order. */
  function EventsFor(moments: seq<Moment>, quarantineStrikes: int, id: nat): seq<IngestEvent> {
    if moments == [] then []
    else
      var earlier, step := moments[..|moments| - 1], moments[|moments| - 1].step;
      EventsFor(earlier, quarantineStrikes, id)
      + if TargetOf(Run(earlier, quarantineStrikes).db, step) == Some(id) then [step.event] else []
  }

  /** How often ingest wrote a job for a given row. */
  function JobsWrittenFor(moments: seq<Moment>, quarantineStrikes: int, id: nat): nat {
    if moments == [] then 0
    else
      var earlier, step := moments[..|moments| - 1], moments[|moments| - 1].step;
      var db := Run(earlier, quarantineStrikes).db;
      JobsWrittenFor(earlier, quarantineStrikes, id)
      + if TargetOf(db, step) == Some(id) && Enqueues(TargetRow(db, step), step.agent, step.event) then 1 else 0
  }

  /** Every row left was there before, and was told the same. */
  ghost predicate ToldNothing(before: Tables, after: Tables) {
    forall id | id in after.activities :: id in before.activities
        && ToldOf(after.activities[id]) == ToldOf(before.activities[id])
  }

  lemma OnlyIngestTells(s: System, m: Moment, quarantineStrikes: int)
    requires !m.step.Ingests?
    ensures ToldNothing(s.db, TablesAfter(s, m, quarantineStrikes))
    ensures TablesAfter(s, m, quarantineStrikes).nextId == s.db.nextId
  {
    hide ToldNothing, ApplyJobOutcome, RetryVerification, ReopenVerification, ClaimPricing, ApplyPricing,
      RequeueUnpriced, PurgeAgent;
    match m.step
    case AppliesJobOutcome(id, outcome) => OutcomeTellsNothing(s.db, id, outcome, quarantineStrikes, m.nowMs);
    case Retries(id) => OperatorsTellNothing(s.db, id, quarantineStrikes, m.nowMs);
    case Reopens(id) => OperatorsTellNothing(s.db, id, quarantineStrikes, m.nowMs);
    case ClaimsPricing(id, leaseMs) => ClaimTellsNothing(s.db, id, leaseMs, m.nowMs);
    case AppliesPricing(claim, write) =>
      if claim < |s.claims| {
        PricingTellsNothing(s.db, s.claims[claim], write, m.nowMs);
      } else {
        SameRowsToldNothing(s.db, s.db);
      }
    case Requeues(chainId) => SweepsTellNothing(s.db, chainId, "", m.nowMs);
    case Purges(agent) => SweepsTellNothing(s.db, None, agent, m.nowMs);
    case _ => SameRowsToldNothing(s.db, TablesAfter(s, m, quarantineStrikes));
  }

  lemma SameRowsToldNothing(before: Tables, after: Tables)
    requires after.activities == before.activities
    ensures ToldNothing(before, after)
  {
  }

  lemma FinalizeTellsNothing(db: Tables, id: nat, verdict: R.TerminalVerdict, quarantineStrikes: int, nowMs: int)
    ensures ToldNothing(db, FinalizeVerification(db, id, verdict, quarantineStrikes, nowMs))
    ensures FinalizeVerification(db, id, verdict, quarantineStrikes, nowMs).nextId == db.nextId
  {
    hide IndependentShapes, AddVerified;
    if id in db.activities && db.activities[id].verification.Queued? {
      var row := FinalizedActivity(db.activities[id], verdict, nowMs);
      assert FinalizeVerification(db, id, verdict, quarantineStrikes, nowMs).activities == db.activities[id := row];
    }
  }

  lemma OutcomeTellsNothing(db: Tables, id: nat, outcome: VerifyJob.JobOutcome, quarantineStrikes: int, nowMs: int)
    ensures ToldNothing(db, ApplyJobOutcome(db, id, outcome, quarantineStrikes, nowMs))
    ensures ApplyJobOutcome(db, id, outcome, quarantineStrikes, nowMs).nextId == db.nextId
  {
    hide FinalizeVerification;
    if outcome.Finalize? {
      FinalizeTellsNothing(db, id, outcome.verdict, quarantineStrikes, nowMs);
    }
  }

  lemma OperatorsTellNothing(db: Tables, id: nat, quarantineStrikes: int, nowMs: int)
    ensures ToldNothing(db, RetryVerification(db, id, nowMs)) && RetryVerification(db, id, nowMs).nextId == db.nextId
    ensures ToldNothing(db, ReopenVerification(db, id, quarantineStrikes, nowMs))
    ensures ReopenVerification(db, id, quarantineStrikes, nowMs).nextId == db.nextId
  {
    hide WithoutActivity, RestoredAgent, StrikesWithdrawn;
  }

  lemma ClaimTellsNothing(db: Tables, id: nat, leaseMs: nat, nowMs: int)
    ensures ToldNothing(db, ClaimPricing(db, id, leaseMs, nowMs))
    ensures ClaimPricing(db, id, leaseMs, nowMs).nextId == db.nextId
  {
    hide IsVerified, AnchorMs;
  }

  lemma PricingTellsNothing(db: Tables, claim: PricingClaim, write: PricingWrite, nowMs: int)
    ensures ToldNothing(db, ApplyPricing(db, claim, write, nowMs))
        && ApplyPricing(db, claim, write, nowMs).nextId == db.nextId
  {
    hide AddPricedVolume;
    if claim.id in db.activities && db.activities[claim.id].pricing.PricingPending? {
      var row := PricedActivity(db.activities[claim.id], write, nowMs);
      assert ToldOf(row) == ToldOf(db.activities[claim.id]);
      assert ApplyPricing(db, claim, write, nowMs).activities == db.activities[claim.id := row];
    }
  }

  lemma SweepsTellNothing(db: Tables, chainId: Option<int>, agent: string, nowMs: int)
    ensures ToldNothing(db, RequeueUnpriced(db, chainId, nowMs))
    ensures RequeueUnpriced(db, chainId, nowMs).nextId == db.nextId
    ensures ToldNothing(db, PurgeAgent(db, agent, nowMs)) && PurgeAgent(db, agent, nowMs).nextId == db.nextId
  {
  }

  /** What a row is told by an event, and whether a job is written, depends on nothing but what it was told before. */
  lemma TellingDependsOnTold(row: Activity, row': Activity, agent: string, event: IngestEvent)
    requires ToldOf(row) == ToldOf(row') && RowIsSound(row) && RowIsSound(row')
    ensures ToldOf(RowAfterEvent(Some(row), agent, event)) == ToldOf(RowAfterEvent(Some(row'), agent, event))
    ensures Enqueues(Some(row), agent, event) == Enqueues(Some(row'), agent, event)
  {
  }

  lemma {:induction false} RowAfterIsSound(agent: string, events: seq<IngestEvent>)
    requires events != []
    ensures RowIsSound(RowAfter(agent, events).value)
  {
    if |events| > 1 {
      RowAfterIsSound(agent, events[..|events| - 1]);
    }
  }

  ghost predicate RowIsAFold(row: Activity, events: seq<IngestEvent>, jobsWritten: nat) {
    && events != []
    && ToldOf(row) == ToldOf(RowAfter(row.agent, events).value)
    && jobsWritten == JobsEnqueued(row.agent, events)
  }

  ghost predicate RowsAreFolds(moments: seq<Moment>, quarantineStrikes: int) {
    var db := Run(moments, quarantineStrikes).db;
    forall id | id in db.activities ::
      RowIsAFold(db.activities[id], EventsFor(moments, quarantineStrikes, id),
                 JobsWrittenFor(moments, quarantineStrikes, id))
  }

  lemma FoldOneMore(events: seq<IngestEvent>, event: IngestEvent, agent: string)
    ensures RowAfter(agent, events + [event]) == Some(RowAfterEvent(RowAfter(agent, events), agent, event))
    ensures JobsEnqueued(agent, events + [event])
            == JobsEnqueued(agent, events) + if Enqueues(RowAfter(agent, events), agent, event) then 1 else 0
  {
    assert (events + [event])[..|events|] == events;
  }

  lemma ToldRowIsAFold(row: Option<Activity>, events: seq<IngestEvent>, jobs: nat, agent: string, event: IngestEvent)
    requires if row.None? then events == [] && jobs == 0
             else RowIsAFold(row.value, events, jobs) && RowIsSound(row.value) && row.value.agent == agent
    ensures RowIsAFold(RowAfterEvent(row, agent, event), events + [event],
                       jobs + if Enqueues(row, agent, event) then 1 else 0)
  {
    FoldOneMore(events, event, agent);
    if row.Some? {
      RowAfterIsSound(agent, events);
      TellingDependsOnTold(row.value, RowAfter(agent, events).value, agent, event);
    }
  }

  /** Ids that were never given out were told nothing. */
  lemma {:induction false} NothingForNewIds(moments: seq<Moment>, quarantineStrikes: int, id: nat)
    requires id >= Run(moments, quarantineStrikes).db.nextId
    ensures EventsFor(moments, quarantineStrikes, id) == [] && JobsWrittenFor(moments, quarantineStrikes, id) == 0
  {
    if moments != [] {
      var earlier, m := moments[..|moments| - 1], moments[|moments| - 1];
      var s := Run(earlier, quarantineStrikes);
      QueueStaysConsistent(earlier, quarantineStrikes);
      if !m.step.Ingests? {
        OnlyIngestTells(s, m, quarantineStrikes);
      }
      NothingForNewIds(earlier, quarantineStrikes, id);
    }
  }

  /** An event rewrites its target and no other row. */
  lemma EventTellsItsTarget(db: Tables, agent: string, event: IngestEvent, nowMs: int, id: nat)
    requires QueueIsSound(db) && id in ApplyEvent(db, agent, event, nowMs).activities
    ensures var target := TargetOf(db, Ingests(agent, event));
            var row := ApplyEvent(db, agent, event, nowMs).activities[id];
            if target == Some(id) then row == RowAfterEvent(TargetRow(db, Ingests(agent, event)), agent, event)
            else id in db.activities && row == db.activities[id]
  {
  }

  lemma TargetIsKnownOrNew(db: Tables, agent: string, event: IngestEvent, id: nat)
    requires QueueIsSound(db) && TargetOf(db, Ingests(agent, event)) == Some(id)
    ensures var row := TargetRow(db, Ingests(agent, event));
            if id in db.activities
            then row == Some(db.activities[id]) && RowIsSound(row.value) && row.value.agent == agent
            else row == None && id == db.nextId
  {
  }

  lemma StillAFold(row: Activity, row': Activity, events: seq<IngestEvent>, jobs: nat)
    requires RowIsAFold(row, events, jobs) && ToldOf(row) == ToldOf(row')
    ensures RowIsAFold(row', events, jobs)
  {
    assert ToldOf(row).agent == ToldOf(row').agent;
  }

  lemma OneMoreMoment(moments: seq<Moment>, m: Moment, quarantineStrikes: int, id: nat)
    ensures var db := Run(moments, quarantineStrikes).db;
            && Run(moments + [m], quarantineStrikes).db
               == TablesAfter(Run(moments, quarantineStrikes), m, quarantineStrikes)
            && EventsFor(moments + [m], quarantineStrikes, id)
               == EventsFor(moments, quarantineStrikes, id)
                   + (if TargetOf(db, m.step) == Some(id) then [m.step.event] else [])
            && JobsWrittenFor(moments + [m], quarantineStrikes, id)
               == JobsWrittenFor(moments, quarantineStrikes, id)
                  + (if TargetOf(db, m.step) == Some(id)
                      && Enqueues(TargetRow(db, m.step), m.step.agent, m.step.event) then 1 else 0)
  {
    assert (moments + [m])[..|moments|] == moments;
  }

  /** One event, one row: `after` is the row the event leaves under `id`, if any. */
  lemma EventKeepsFold(db: Tables, agent: string, event: IngestEvent, nowMs: int, id: nat, events: seq<IngestEvent>,
                       jobs: nat)
    requires QueueIsSound(db) && id in ApplyEvent(db, agent, event, nowMs).activities
    requires if id in db.activities then RowIsAFold(db.activities[id], events, jobs) else events == [] && jobs == 0
    ensures var told := TargetOf(db, Ingests(agent, event)) == Some(id);
            RowIsAFold(ApplyEvent(db, agent, event, nowMs).activities[id], events + (if told then [event] else []),
                       jobs + if told && Enqueues(TargetRow(db, Ingests(agent, event)), agent, event) then 1 else 0)
  {
    EventTellsItsTarget(db, agent, event, nowMs, id);
    if TargetOf(db, Ingests(agent, event)) == Some(id) {
      TargetIsKnownOrNew(db, agent, event, id);
      ToldRowIsAFold(TargetRow(db, Ingests(agent, event)), events, jobs, agent, event);
    } else {
      assert events + [] == events;
    }
  }

  lemma OtherStepKeepsFold(s: System, m: Moment, quarantineStrikes: int, id: nat, events: seq<IngestEvent>, jobs: nat)
    requires !m.step.Ingests? && id in TablesAfter(s, m, quarantineStrikes).activities
    requires id in s.db.activities ==> RowIsAFold(s.db.activities[id], events, jobs)
    ensures RowIsAFold(TablesAfter(s, m, quarantineStrikes).activities[id], events, jobs)
  {
    OnlyIngestTells(s, m, quarantineStrikes);
    StillAFold(s.db.activities[id], TablesAfter(s, m, quarantineStrikes).activities[id], events, jobs);
  }

  lemma NewRowIsTold(moments: seq<Moment>, agent: string, event: IngestEvent, nowMs: int, quarantineStrikes: int,
                     id: nat)
    requires QueueIsSound(Run(moments, quarantineStrikes).db)
    requires id !in Run(moments, quarantineStrikes).db.activities
    requires id in ApplyEvent(Run(moments, quarantineStrikes).db, agent, event, nowMs).activities
    ensures EventsFor(moments, quarantineStrikes, id) == [] && JobsWrittenFor(moments, quarantineStrikes, id) == 0
  {
    var db := Run(moments, quarantineStrikes).db;
    EventTellsItsTarget(db, agent, event, nowMs, id);
    TargetIsKnownOrNew(db, agent, event, id);
    NothingForNewIds(moments, quarantineStrikes, id);
  }

  lemma NextEventKeepsFold(moments: seq<Moment>, m: Moment, quarantineStrikes: int, id: nat)
    requires RowsAreFolds(moments, quarantineStrikes) && m.step.Ingests?
    requires QueueIsSound(Run(moments, quarantineStrikes).db)
    requires id in ApplyEvent(Run(moments, quarantineStrikes).db, m.step.agent, m.step.event, m.nowMs).activities
    ensures var after := ApplyEvent(Run(moments, quarantineStrikes).db, m.step.agent, m.step.event, m.nowMs);
            RowIsAFold(after.activities[id],
                       EventsFor(moments + [m], quarantineStrikes, id),
                       JobsWrittenFor(moments + [m], quarantineStrikes, id))
  {
    hide QueueIsSound, RowIsAFold, Enqueues, ApplyEvent, TablesAfter, ExistingRow;
    var s, events, jobs := Run(moments, quarantineStrikes), EventsFor(moments, quarantineStrikes, id),
        JobsWrittenFor(moments, quarantineStrikes, id);
    OneMoreMoment(moments, m, quarantineStrikes, id);
    assert m.step == Ingests(m.step.agent, m.step.event);
    assert id in s.db.activities ==> RowIsAFold(s.db.activities[id], events, jobs);
    if id !in s.db.activities {
      NewRowIsTold(moments, m.step.agent, m.step.event, m.nowMs, quarantineStrikes, id);
    }
    EventKeepsFold(s.db, m.step.agent, m.step.event, m.nowMs, id, events, jobs);
  }

  lemma NextOtherKeepsFold(moments: seq<Moment>, m: Moment, quarantineStrikes: int, id: nat)
    requires RowsAreFolds(moments, quarantineStrikes) && !m.step.Ingests?
    requires id in TablesAfter(Run(moments, quarantineStrikes), m, quarantineStrikes).activities
    ensures RowIsAFold(TablesAfter(Run(moments, quarantineStrikes), m, quarantineStrikes).activities[id],
                       EventsFor(moments + [m], quarantineStrikes, id),
                       JobsWrittenFor(moments + [m], quarantineStrikes, id))
  {
    hide RowIsAFold, TablesAfter;
    var s, events, jobs := Run(moments, quarantineStrikes), EventsFor(moments, quarantineStrikes, id),
        JobsWrittenFor(moments, quarantineStrikes, id);
    OneMoreMoment(moments, m, quarantineStrikes, id);
    assert id in s.db.activities ==> RowIsAFold(s.db.activities[id], events, jobs);
    OtherStepKeepsFold(s, m, quarantineStrikes, id, events, jobs);
    assert TargetOf(s.db, m.step).None? && events + [] == events;
  }

  lemma NextKeepsFold(moments: seq<Moment>, m: Moment, quarantineStrikes: int, id: nat)
    requires RowsAreFolds(moments, quarantineStrikes)
    requires id in Run(moments + [m], quarantineStrikes).db.activities
    ensures RowIsAFold(Run(moments + [m], quarantineStrikes).db.activities[id],
                       EventsFor(moments + [m], quarantineStrikes, id),
                       JobsWrittenFor(moments + [m], quarantineStrikes, id))
  {
    hide RowsAreFolds, RowIsAFold, QueueIsSound, ApplyEvent;
    OneMoreMoment(moments, m, quarantineStrikes, id);
    QueueStaysConsistent(moments, quarantineStrikes);
    if m.step.Ingests? {
      NextEventKeepsFold(moments, m, quarantineStrikes, id);
    } else {
      NextOtherKeepsFold(moments, m, quarantineStrikes, id);
    }
  }

  /** In every run, whatever workers and operators do in between, every live row has been told exactly the fold of
      the events ingested for it, and ingest has written as many jobs for it as that fold enqueues: by
      Activities.IngestIsAFold one, when the first terminal status is confirmed and came or started with a hash. */
  lemma {:induction false} LiveRowsAreFolds(moments: seq<Moment>, quarantineStrikes: int)
    ensures RowsAreFolds(moments, quarantineStrikes)
  {
    if moments != [] {
      var earlier, m := moments[..|moments| - 1], moments[|moments| - 1];
      assert earlier + [m] == moments;
      LiveRowsAreFolds(earlier, quarantineStrikes);
      forall id | id in Run(moments, quarantineStrikes).db.activities
        ensures RowIsAFold(Run(moments, quarantineStrikes).db.activities[id], EventsFor(moments, quarantineStrikes, id),
                           JobsWrittenFor(moments, quarantineStrikes, id))
      {
        NextKeepsFold(earlier, m, quarantineStrikes, id);
      }
    }
  }
}
