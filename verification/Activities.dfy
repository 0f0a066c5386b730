/** The activity rows and what ingesting an event does to one of them
    (db/schema.sql, packages/core/src/ingest-decision.ts, apps/server/src/repos/activities-ingest-repo.ts). */
module Activities {
  import opened Wrappers
  import Chains
  import VerifyJob

  datatype EventStatus = Pending | Confirmed | DefinitivelyFailed | SupersededUnproven

  datatype VerificationState = NotQueued | Queued | VerifiedFull | VerifiedBasic | Mismatch

  datatype PricingState = PricingPending | ServerPriced | Unpriced

  datatype IngestEvent = IngestEvent(sourceRow: string, kind: VerifyJob.Kind, eventRole: string, status: EventStatus,
                                     protocol: string, chainFamily: Chains.ChainFamily, chainId: int,
                                     usdInEst: Option<real>, txHash: Option<string>, confirmedAtMs: Option<int>)

  datatype Activity = Activity(agent: string, sourceRow: string, kind: VerifyJob.Kind, eventRole: string,
                               protocol: string, chainFamily: Chains.ChainFamily, chainId: int,
                               status: EventStatus, statusesSeen: seq<EventStatus>, txHash: Option<string>,
                               usdInEst: Option<real>, clientConfirmedAtMs: Option<int>,
                               verification: VerificationState, verifiedAtMs: Option<int>, blockTimeMs: Option<int>,
                               pricing: PricingState, usdInPriced: Option<real>, usdOutPriced: Option<real>,
                               pricingAttempts: nat, pricingDueMs: Option<int>)

  predicate IsTerminal(status: EventStatus) {
    !status.Pending?
  }

  datatype IngestDecision = Insert | Duplicate | Promote | AcceptNoop

  function DecideIngest(existing: Option<Activity>, incoming: EventStatus): IngestDecision {
    if existing.None? then Insert
    else if incoming in existing.value.statusesSeen then Duplicate
    else if existing.value.status.Pending? && IsTerminal(incoming) then Promote
    else AcceptNoop
  }

  function InitialVerificationState(event: IngestEvent): VerificationState {
    if event.status.Confirmed? && event.txHash.Some? then Queued else NotQueued
  }

  function InsertedActivity(agent: string, event: IngestEvent): Activity {
    Activity(agent, event.sourceRow, event.kind, event.eventRole, event.protocol, event.chainFamily, event.chainId,
             event.status, [event.status], event.txHash, event.usdInEst, event.confirmedAtMs,
             InitialVerificationState(event), None, None, PricingPending, None, None, 0, None)
  }

  /** The UPDATE that promotes a row whose status is still pending. */
  function PromotedActivity(row: Activity, event: IngestEvent): Activity {
    row.(status := event.status,
         statusesSeen := row.statusesSeen + [event.status],
         txHash := Coalesce(event.txHash, row.txHash),
         usdInEst := Coalesce(event.usdInEst, row.usdInEst),
         clientConfirmedAtMs := Coalesce(event.confirmedAtMs, row.clientConfirmedAtMs),
         verification := if event.status.Confirmed? && Coalesce(event.txHash, row.txHash).Some?
                         then Queued else row.verification)
  }

  function WithStatusSeen(row: Activity, event: IngestEvent): Activity {
    row.(statusesSeen := row.statusesSeen + [event.status])
  }

  /** The row an event leaves behind. */
  function RowAfterEvent(row: Option<Activity>, agent: string, event: IngestEvent): Activity {
    match DecideIngest(row, event.status)
    case Insert => InsertedActivity(agent, event)
    case Duplicate => row.value
    case Promote => PromotedActivity(row.value, event)
    case AcceptNoop => WithStatusSeen(row.value, event)
  }

  /** Whether the event's transaction writes a job: the inserted or promoted row comes back queued. */
  predicate Enqueues(row: Option<Activity>, agent: string, event: IngestEvent) {
    && (DecideIngest(row, event.status).Insert? || DecideIngest(row, event.status).Promote?)
    && RowAfterEvent(row, agent, event).verification.Queued?
  }

  // Ingest as a fold, for the events of one source row

  function RowAfter(agent: string, events: seq<IngestEvent>): Option<Activity> {
    if events == [] then None
    else Some(RowAfterEvent(RowAfter(agent, events[..|events| - 1]), agent, events[|events| - 1]))
  }

  function JobsEnqueued(agent: string, events: seq<IngestEvent>): nat {
    if events == [] then 0
    else
      JobsEnqueued(agent, events[..|events| - 1])
      + if Enqueues(RowAfter(agent, events[..|events| - 1]), agent, events[|events| - 1]) then 1 else 0
  }

  /** The position of the first event that reports a terminal status, or the number of events. */
  ghost function FirstTerminal(events: seq<IngestEvent>): (k: nat)
    ensures k <= |events|
    ensures forall i | 0 <= i < k :: events[i].status.Pending?
    ensures k < |events| ==> IsTerminal(events[k].status)
  {
    if events == [] then 0 else if IsTerminal(events[0].status) then 0 else 1 + FirstTerminal(events[1..])
  }

  /** The statuses in order of first arrival. */
  ghost function DistinctStatuses(events: seq<IngestEvent>): seq<EventStatus> {
    if events == [] then []
    else
      var before := DistinctStatuses(events[..|events| - 1]);
      if events[|events| - 1].status in before then before else before + [events[|events| - 1].status]
  }

  lemma {:induction false} FirstTerminalOfPrefix(events: seq<IngestEvent>)
    requires events != []
    ensures FirstTerminal(events[..|events| - 1])
            == if FirstTerminal(events) < |events| - 1 then FirstTerminal(events) else |events| - 1
  {
    var prefix, k, j := events[..|events| - 1], FirstTerminal(events), FirstTerminal(events[..|events| - 1]);
    assert j < |prefix| ==> prefix[j] == events[j] && !(j < k);
    assert k < |prefix| ==> prefix[k] == events[k] && !(k < j);
  }

  ghost predicate IsFoldOf(row: Activity, events: seq<IngestEvent>)
    requires events != []
  {
    var k := FirstTerminal(events);
    && row.status == (if k < |events| then events[k].status else Pending)
    && row.statusesSeen == DistinctStatuses(events)
    && row.txHash == (if k < |events| then Coalesce(events[k].txHash, events[0].txHash) else events[0].txHash)
    && row.usdInEst == (if k < |events| then Coalesce(events[k].usdInEst, events[0].usdInEst) else events[0].usdInEst)
    && row.clientConfirmedAtMs
       == (if k < |events| then Coalesce(events[k].confirmedAtMs, events[0].confirmedAtMs) else events[0].confirmedAtMs)
    && row.sourceRow == events[0].sourceRow && row.kind == events[0].kind && row.eventRole == events[0].eventRole
    && row.protocol == events[0].protocol && row.chainFamily == events[0].chainFamily
    && row.chainId == events[0].chainId
    && row.verification
       == (if k < |events| && events[k].status.Confirmed? && row.txHash.Some? then Queued else NotQueued)
  }

  /** Replaying a status the row has seen changes nothing and enqueues nothing. */
  lemma ReplayChangesNothing(row: Activity, agent: string, event: IngestEvent)
    requires event.status in row.statusesSeen
    ensures RowAfterEvent(Some(row), agent, event) == row && !Enqueues(Some(row), agent, event)
  {
  }

  /** For one source row and any events: the status is the first terminal one, else pending; the statuses seen
      are the distinct ones in arrival order; one job is enqueued, exactly when that first terminal status is
      confirmed and it or the inserting event carried a transaction hash. */
  lemma {:induction false} IngestIsAFold(agent: string, events: seq<IngestEvent>)
    requires events != []
    ensures IsFoldOf(RowAfter(agent, events).value, events)
    ensures JobsEnqueued(agent, events) == JobsOfFold(events)
  {
    var n := |events| - 1;
    if n == 0 {
      FirstEventFolds(agent, events);
    } else {
      IngestIsAFold(agent, events[..n]);
      NextEventFolds(agent, events);
    }
  }

  /** One, when the first terminal status is confirmed and it or the inserting event carried a hash. */
  ghost function JobsOfFold(events: seq<IngestEvent>): nat
    requires events != []
  {
    var k := FirstTerminal(events);
    if k < |events| && events[k].status.Confirmed? && (events[k].txHash.Some? || events[0].txHash.Some?) then 1 else 0
  }

  lemma FirstEventFolds(agent: string, events: seq<IngestEvent>)
    requires |events| == 1
    ensures IsFoldOf(RowAfter(agent, events).value, events) && JobsEnqueued(agent, events) == JobsOfFold(events)
  {
    assert RowAfter(agent, events[..0]) == None && DistinctStatuses(events[..0]) == [];
    assert FirstTerminal(events) == if IsTerminal(events[0].status) then 0 else 1;
  }

  lemma EventOnSettledRow(row: Activity, agent: string, event: IngestEvent)
    requires IsTerminal(row.status)
    ensures !Enqueues(Some(row), agent, event)
    ensures RowAfterEvent(Some(row), agent, event)
            == if event.status in row.statusesSeen then row else row.(statusesSeen := row.statusesSeen + [event.status])
  {
  }

  lemma EventOnPendingRow(row: Activity, agent: string, event: IngestEvent)
    requires row.status.Pending? && row.verification.NotQueued?
        && forall status | status in row.statusesSeen :: status.Pending?
    ensures Enqueues(Some(row), agent, event) <==> event.status.Confirmed? && Coalesce(event.txHash, row.txHash).Some?
    ensures RowAfterEvent(Some(row), agent, event)
            == if IsTerminal(event.status) then PromotedActivity(row, event)
               else if event.status in row.statusesSeen then row
               else row.(statusesSeen := row.statusesSeen + [event.status])
  {
  }

  lemma NextEventFolds(agent: string, events: seq<IngestEvent>)
    requires |events| > 1
    requires IsFoldOf(RowAfter(agent, events[..|events| - 1]).value, events[..|events| - 1])
    requires JobsEnqueued(agent, events[..|events| - 1]) == JobsOfFold(events[..|events| - 1])
    ensures IsFoldOf(RowAfter(agent, events).value, events) && JobsEnqueued(agent, events) == JobsOfFold(events)
  {
    hide RowAfterEvent, Enqueues, FirstTerminal;
    var n, k := |events| - 1, FirstTerminal(events);
    var row := RowAfter(agent, events[..n]).value;
    FirstTerminalOfPrefix(events);
    assert events[..n][0] == events[0];
    if k < n {
      assert events[..n][k] == events[k];
      EventOnSettledRow(row, agent, events[n]);
    } else {
      NoTerminalSeen(events[..n]);
      EventOnPendingRow(row, agent, events[n]);
    }
  }

  lemma {:induction false} NoTerminalSeen(events: seq<IngestEvent>)
    requires FirstTerminal(events) == |events|
    ensures forall status | status in DistinctStatuses(events) :: status.Pending?
  {
    if events != [] {
      FirstTerminalOfPrefix(events);
      NoTerminalSeen(events[..|events| - 1]);
    }
  }
}
