/** What the strikes table and the agents' strike counts say in every run. */
module StrikeLedger {
  import opened Wrappers
  import opened Activities
  import opened Database
  import opened Protocol
  import VerifyJob
  import R = Receipt

  /** Strike rows of one activity. */
  function RowsFor(strikes: seq<StrikeRow>, id: nat): nat {
    if strikes == [] then 0 else (if strikes[0].activityId == Some(id) then 1 else 0) + RowsFor(strikes[1..], id)
  }

  /** Strike rows of one agent that name an activity; the notes operators leave name none. */
  function RowsOf(strikes: seq<StrikeRow>, agent: string): nat {
    if strikes == [] then 0
    else (if strikes[0].agent == agent && strikes[0].activityId.Some? then 1 else 0) + RowsOf(strikes[1..], agent)
  }

  lemma {:induction false} RowsForAppend(strikes: seq<StrikeRow>, last: StrikeRow, id: nat)
    ensures RowsFor(strikes + [last], id) == RowsFor(strikes, id) + if last.activityId == Some(id) then 1 else 0
  {
    if strikes == [] {
      assert strikes + [last] == [last];
    } else {
      assert (strikes + [last])[1..] == strikes[1..] + [last];
      RowsForAppend(strikes[1..], last, id);
    }
  }

  lemma {:induction false} RowsOfAppend(strikes: seq<StrikeRow>, last: StrikeRow, agent: string)
    ensures RowsOf(strikes + [last], agent)
            == RowsOf(strikes, agent) + if last.agent == agent && last.activityId.Some? then 1 else 0
  {
    if strikes == [] {
      assert strikes + [last] == [last];
    } else {
      assert (strikes + [last])[1..] == strikes[1..] + [last];
      RowsOfAppend(strikes[1..], last, agent);
    }
  }

  lemma {:induction false} RowsForWithoutActivity(strikes: seq<StrikeRow>, gone: nat, id: nat)
    ensures RowsFor(WithoutActivity(strikes, gone), id) == if id == gone then 0 else RowsFor(strikes, id)
  {
    if strikes != [] {
      RowsForWithoutActivity(strikes[1..], gone, id);
      var rest := WithoutActivity(strikes[1..], gone);
      assert [strikes[0]] + rest != [] && ([strikes[0]] + rest)[1..] == rest;
    }
  }

  /** Withdrawing an activity's rows takes as many from its agent as the activity had, and none from others. */
  lemma {:induction false} RowsOfWithoutActivity(strikes: seq<StrikeRow>, id: nat, owner: string, agent: string)
    requires forall s | s in strikes && s.activityId == Some(id) :: s.agent == owner
    ensures RowsOf(WithoutActivity(strikes, id), agent)
            == RowsOf(strikes, agent) - if agent == owner then RowsFor(strikes, id) else 0
    ensures |WithoutActivity(strikes, id)| == |strikes| - RowsFor(strikes, id)
  {
    if strikes != [] {
      assert strikes[0] in strikes;
      forall s | s in strikes[1..] && s.activityId == Some(id)
        ensures s.agent == owner
      {
        assert s in strikes;
      }
      RowsOfWithoutActivity(strikes[1..], id, owner, agent);
      var rest := WithoutActivity(strikes[1..], id);
      assert ([strikes[0]] + rest)[1..] == rest;
    }
  }

  lemma {:induction false} WithoutAgentRows(strikes: seq<StrikeRow>, gone: string, agent: string)
    ensures RowsOf(WithoutAgent(strikes, gone), agent) == if agent == gone then 0 else RowsOf(strikes, agent)
  {
    if strikes != [] {
      WithoutAgentRows(strikes[1..], gone, agent);
      var rest := WithoutAgent(strikes[1..], gone);
      assert ([strikes[0]] + rest)[1..] == rest;
    }
  }

  /** Purging an agent takes the rows of its activities and leaves those of others. */
  lemma {:induction false} WithoutAgentRowsFor(strikes: seq<StrikeRow>, gone: string, id: nat, owner: string)
    requires forall s | s in strikes && s.activityId == Some(id) :: s.agent == owner
    ensures RowsFor(WithoutAgent(strikes, gone), id) == if owner == gone then 0 else RowsFor(strikes, id)
  {
    if strikes != [] {
      assert strikes[0] in strikes;
      forall s | s in strikes[1..] && s.activityId == Some(id)
        ensures s.agent == owner
      {
        assert s in strikes;
      }
      WithoutAgentRowsFor(strikes[1..], gone, id, owner);
      var rest := WithoutAgent(strikes[1..], gone);
      assert ([strikes[0]] + rest)[1..] == rest;
    }
  }

  lemma {:induction false} WithoutKeepsOnly(strikes: seq<StrikeRow>, id: nat, agent: string, s: StrikeRow)
    ensures s in WithoutActivity(strikes, id) ==> s in strikes && s.activityId != Some(id)
    ensures s in WithoutAgent(strikes, agent) ==> s in strikes && s.agent != agent
  {
    if strikes != [] {
      WithoutKeepsOnly(strikes[1..], id, agent, s);
      assert s in strikes[1..] ==> s in strikes;
    }
  }

  /** Strikes of one shape count once, so an agent never has more shapes than rows. */
  lemma {:induction false} ShapesAreFewer(strikes: seq<StrikeRow>, activities: map<nat, Activity>, agent: string)
    ensures |IndependentShapes(strikes, activities, agent)| <= RowsOf(strikes, agent)
  {
    if strikes != [] {
      ShapesAreFewer(strikes[1..], activities, agent);
    }
  }

  /** The shapes are those of the agent's strikes on activities that are still there. */
  lemma {:induction false} ShapesAreThoseStruck(strikes: seq<StrikeRow>, activities: map<nat, Activity>,
                                                agent: string, shape: Shape)
    ensures shape in IndependentShapes(strikes, activities, agent) <==>
            exists i | 0 <= i < |strikes| ::
              && strikes[i].agent == agent && strikes[i].activityId.Some? && strikes[i].activityId.value in activities
              && ShapeOf(strikes[i], activities[strikes[i].activityId.value]) == shape
  {
    if strikes != [] {
      ShapesAreThoseStruck(strikes[1..], activities, agent, shape);
      assert forall i | 0 <= i < |strikes| - 1 :: strikes[1..][i] == strikes[i + 1];
      assert forall i | 0 < i < |strikes| :: strikes[i] == strikes[1..][i - 1];
    }
  }

  // The invariant

  predicate IsStruck(row: Activity) {
    row.verification.Mismatch? && !IsLaunchShaped(row)
  }

  /** Each activity has one strike row when it is struck and none otherwise. */
  ghost predicate OneRowPerStruckActivity(activities: map<nat, Activity>, strikes: seq<StrikeRow>) {
    forall id: nat :: RowsFor(strikes, id) == if id in activities && IsStruck(activities[id]) then 1 else 0
  }

  /** A row names an activity of its own agent, and every row's agent is known. */
  ghost predicate RowsNameTheirAgent(activities: map<nat, Activity>, strikes: seq<StrikeRow>, agents: set<string>) {
    forall s | s in strikes ::
      && s.agent in agents
      && (s.activityId.Some? ==> s.activityId.value in activities && activities[s.activityId.value].agent == s.agent)
  }

  /** The count of an agent that was never lifted covers its rows. Until an agent is purged its rows cover its count,
      and a quarantined agent that was never lifted has reached the threshold. */
  ghost predicate CountsMatch(agents: map<string, Agent>, strikes: seq<StrikeRow>, lifted: set<string>,
                              quarantineStrikes: int) {
    && (forall a | a in agents && a !in lifted :: agents[a].strikeCount >= RowsOf(strikes, a))
    && (forall a | a in agents && agents[a].purgedMs.None? ::
          && agents[a].strikeCount <= RowsOf(strikes, a)
          && (a !in lifted && agents[a].status.Quarantined? ==> agents[a].strikeCount >= quarantineStrikes))
  }

  ghost predicate LedgerIsSound(db: Tables, lifted: set<string>, quarantineStrikes: int) {
    && OneRowPerStruckActivity(db.activities, db.strikes)
    && RowsNameTheirAgent(db.activities, db.strikes, db.agents.Keys)
    && CountsMatch(db.agents, db.strikes, lifted, quarantineStrikes)
  }

  /** A statement that strikes nobody: the struck activities are the same, and so are the agents' counts. */
  lemma NothingStruck(db: Tables, after: Tables, lifted: set<string>, quarantineStrikes: int)
    requires LedgerIsSound(db, lifted, quarantineStrikes)
    requires after.strikes == db.strikes
    requires db.activities.Keys <= after.activities.Keys
    requires forall id | id in after.activities ::
               if id in db.activities
               then
                 && after.activities[id].agent == db.activities[id].agent
                 && IsStruck(after.activities[id]) == IsStruck(db.activities[id])
               else !IsStruck(after.activities[id])
    requires db.agents.Keys <= after.agents.Keys
    requires forall a | a in after.agents ::
               && (a in db.agents ==> after.agents[a].strikeCount == db.agents[a].strikeCount
                                      && after.agents[a].purgedMs == db.agents[a].purgedMs)
               && (a !in db.agents ==> after.agents[a].strikeCount == 0)
               && (after.agents[a].status.Quarantined? ==> a in db.agents && db.agents[a].status.Quarantined?)
    ensures LedgerIsSound(after, lifted, quarantineStrikes)
  {
    forall id: nat
      ensures RowsFor(after.strikes, id) == if id in after.activities && IsStruck(after.activities[id]) then 1 else 0
    {
      assert RowsFor(db.strikes, id) == if id in db.activities && IsStruck(db.activities[id]) then 1 else 0;
    }
    forall a | a in after.agents && a !in db.agents
      ensures RowsOf(after.strikes, a) == 0
    {
      UnknownAgentHasNoRows(db.strikes, a, db.agents.Keys);
    }
  }

  lemma {:induction false} UnknownAgentHasNoRows(strikes: seq<StrikeRow>, agent: string, agents: set<string>)
    requires agent !in agents && forall s | s in strikes :: s.agent in agents
    ensures RowsOf(strikes, agent) == 0
  {
    if strikes != [] {
      assert strikes[0] in strikes;
      forall s | s in strikes[1..]
        ensures s.agent in agents
      {
        assert s in strikes;
      }
      UnknownAgentHasNoRows(strikes[1..], agent, agents);
    }
  }

  lemma StrikeRecords(db: Tables, id: nat, reason: R.StrikeReason, quarantineStrikes: int, nowMs: int, k: nat,
                      a: string)
    requires id in db.activities && db.activities[id].verification.Queued? && !IsLaunchShaped(db.activities[id])
    ensures var after := FinalizeVerification(db, id, R.Strike(reason), quarantineStrikes, nowMs);
            && after.strikes == db.strikes + [StrikeRow(db.activities[id].agent, Some(id), Verdict(reason))]
            && after.activities == db.activities[id := FinalizedActivity(db.activities[id], R.Strike(reason), nowMs)]
            && RowsFor(after.strikes, k) == RowsFor(db.strikes, k) + (if k == id then 1 else 0)
            && RowsOf(after.strikes, a) == RowsOf(db.strikes, a) + (if a == db.activities[id].agent then 1 else 0)
  {
    hide IndependentShapes, RowsFor, RowsOf;
    var strike := StrikeRow(db.activities[id].agent, Some(id), Verdict(reason));
    RowsForAppend(db.strikes, strike, k);
    RowsOfAppend(db.strikes, strike, a);
  }

  lemma StrikeKeepsRows(db: Tables, id: nat, reason: R.StrikeReason, quarantineStrikes: int, nowMs: int)
    requires OneRowPerStruckActivity(db.activities, db.strikes)
        && RowsNameTheirAgent(db.activities, db.strikes, db.agents.Keys)
    requires id in db.activities && db.activities[id].verification.Queued? && !IsLaunchShaped(db.activities[id])
    requires db.activities[id].agent in db.agents
    ensures var after := FinalizeVerification(db, id, R.Strike(reason), quarantineStrikes, nowMs);
            && OneRowPerStruckActivity(after.activities, after.strikes)
            && RowsNameTheirAgent(after.activities, after.strikes, db.agents.Keys)
  {
    hide FinalizeVerification, RowsFor, RowsOf;
    var after := FinalizeVerification(db, id, R.Strike(reason), quarantineStrikes, nowMs);
    StrikeRecords(db, id, reason, quarantineStrikes, nowMs, id, "");
    forall k: nat
      ensures RowsFor(after.strikes, k) == if k in after.activities && IsStruck(after.activities[k]) then 1 else 0
    {
      StrikeRecords(db, id, reason, quarantineStrikes, nowMs, k, "");
      assert RowsFor(db.strikes, k) == if k in db.activities && IsStruck(db.activities[k]) then 1 else 0;
    }
  }

  lemma StrikeKeepsLedger(db: Tables, lifted: set<string>, id: nat, reason: R.StrikeReason, quarantineStrikes: int,
                          nowMs: int)
    requires LedgerIsSound(db, lifted, quarantineStrikes) && QueueIsSound(db)
    requires id in db.activities && db.activities[id].verification.Queued? && !IsLaunchShaped(db.activities[id])
    ensures LedgerIsSound(FinalizeVerification(db, id, R.Strike(reason), quarantineStrikes, nowMs), lifted,
                          quarantineStrikes)
  {
    hide IndependentShapes, RowsFor, RowsOf, OneRowPerStruckActivity, RowsNameTheirAgent, IndexMatches, JobsMatch;
    var after := FinalizeVerification(db, id, R.Strike(reason), quarantineStrikes, nowMs);
    var agent := db.activities[id].agent;
    var shapes := |IndependentShapes(after.strikes, after.activities, agent)|;
    StrikeKeepsRows(db, id, reason, quarantineStrikes, nowMs);
    ShapesAreFewer(after.strikes, after.activities, agent);
    assert after.agents == db.agents[agent := StruckAgent(db.agents[agent], shapes, quarantineStrikes, nowMs)];
    assert after.agents.Keys == db.agents.Keys;
    forall a | a in after.agents
      ensures RowsOf(after.strikes, a) == RowsOf(db.strikes, a) + if a == agent then 1 else 0
    {
      StrikeRecords(db, id, reason, quarantineStrikes, nowMs, id, a);
    }
  }

  lemma ReopenWithdraws(db: Tables, id: nat, quarantineStrikes: int, nowMs: int, k: nat, a: string)
    requires OneRowPerStruckActivity(db.activities, db.strikes)
        && RowsNameTheirAgent(db.activities, db.strikes, db.agents.Keys)
    requires CanReopen(db, id)
    ensures var after := ReopenVerification(db, id, quarantineStrikes, nowMs);
            && RowsFor(after.strikes, k) == (if k == id then 0 else RowsFor(db.strikes, k))
            && RowsOf(after.strikes, a) == RowsOf(db.strikes,
                a) - (if a == db.activities[id].agent then RowsFor(db.strikes, id) else 0)
            && RowsFor(db.strikes, id) == StrikesWithdrawn(db, id) <= 1
  {
    var agent := db.activities[id].agent;
    var note := StrikeRow(agent, None, OperatorReopen);
    var kept := WithoutActivity(db.strikes, id);
    assert RowsFor(db.strikes, id) <= 1;
    RowsOfWithoutActivity(db.strikes, id, agent, a);
    RowsForWithoutActivity(db.strikes, id, k);
    RowsForAppend(kept, note, k);
    RowsOfAppend(kept, note, a);
  }

  lemma ReopenKeepsRows(db: Tables, lifted: set<string>, id: nat, quarantineStrikes: int, nowMs: int)
    requires LedgerIsSound(db, lifted, quarantineStrikes) && QueueIsSound(db)
    requires CanReopen(db, id)
    ensures var after := ReopenVerification(db, id, quarantineStrikes, nowMs);
            OneRowPerStruckActivity(after.activities, after.strikes)
                && RowsNameTheirAgent(after.activities, after.strikes, after.agents.Keys)
  {
    hide RowsFor, RowsOf, WithoutActivity, CountsMatch, IndexMatches, JobsMatch;
    var after := ReopenVerification(db, id, quarantineStrikes, nowMs);
    forall k: nat
      ensures RowsFor(after.strikes, k) == if k in after.activities && IsStruck(after.activities[k]) then 1 else 0
    {
      ReopenWithdraws(db, id, quarantineStrikes, nowMs, k, "");
      assert RowsFor(db.strikes, k) == if k in db.activities && IsStruck(db.activities[k]) then 1 else 0;
    }
    forall s | s in after.strikes
      ensures s == StrikeRow(db.activities[id].agent, None, OperatorReopen) || s in db.strikes
    {
      WithoutKeepsOnly(db.strikes, id, "", s);
    }
    assert after.agents.Keys == db.agents.Keys;
  }

  lemma ReopenKeepsLedger(db: Tables, lifted: set<string>, id: nat, quarantineStrikes: int, nowMs: int)
    requires LedgerIsSound(db, lifted, quarantineStrikes) && QueueIsSound(db)
    requires CanReopen(db, id)
    ensures LedgerIsSound(ReopenVerification(db, id, quarantineStrikes, nowMs), lifted, quarantineStrikes)
  {
    hide RowsFor, RowsOf, WithoutActivity, OneRowPerStruckActivity, RowsNameTheirAgent, IndexMatches, JobsMatch;
    var after := ReopenVerification(db, id, quarantineStrikes, nowMs);
    ReopenKeepsRows(db, lifted, id, quarantineStrikes, nowMs);
    var agent := db.activities[id].agent;
    ReopenWithdraws(db, id, quarantineStrikes, nowMs, id, agent);
    assert after.agents[agent] == RestoredAgent(db.agents[agent], StrikesWithdrawn(db, id), quarantineStrikes).0;
    forall a | a in after.agents && a != agent
      ensures RowsOf(after.strikes, a) == RowsOf(db.strikes, a) && after.agents[a] == db.agents[a]
    {
      ReopenWithdraws(db, id, quarantineStrikes, nowMs, id, a);
    }
  }

  lemma LiftKeepsLedger(db: Tables, lifted: set<string>, agent: string, quarantineStrikes: int)
    requires LedgerIsSound(db, lifted, quarantineStrikes)
    requires agent in db.agents && db.agents[agent].status.Quarantined?
    ensures LedgerIsSound(LiftQuarantine(db, agent), lifted + {agent}, quarantineStrikes)
  {
    var after := LiftQuarantine(db, agent);
    var note := StrikeRow(agent, None, OperatorLift);
    forall k: nat
      ensures RowsFor(after.strikes, k) == if k in after.activities && IsStruck(after.activities[k]) then 1 else 0
    {
      RowsForAppend(db.strikes, note, k);
      assert RowsFor(db.strikes, k) == if k in db.activities && IsStruck(db.activities[k]) then 1 else 0;
    }
    forall a | a in after.agents
      ensures RowsOf(after.strikes, a) == RowsOf(db.strikes, a)
    {
      RowsOfAppend(db.strikes, note, a);
    }
  }

  lemma PurgeKeepsLedger(db: Tables, lifted: set<string>, agent: string, quarantineStrikes: int, nowMs: int)
    requires LedgerIsSound(db, lifted, quarantineStrikes)
    ensures LedgerIsSound(PurgeAgent(db, agent, nowMs), lifted, quarantineStrikes)
  {
    var after := PurgeAgent(db, agent, nowMs);
    forall k: nat
      ensures RowsFor(after.strikes, k) == if k in after.activities && IsStruck(after.activities[k]) then 1 else 0
    {
      var owner := if k in db.activities then db.activities[k].agent else agent;
      WithoutAgentRowsFor(db.strikes, agent, k, owner);
      assert RowsFor(db.strikes, k) == if k in db.activities && IsStruck(db.activities[k]) then 1 else 0;
    }
    forall s | s in after.strikes
      ensures s in db.strikes && s.agent != agent
    {
      WithoutKeepsOnly(db.strikes, 0, agent, s);
    }
    forall a | a in after.agents
      ensures RowsOf(after.strikes, a) == if a == agent then 0 else RowsOf(db.strikes, a)
    {
      WithoutAgentRows(db.strikes, agent, a);
    }
  }

  /** One row is rewritten without being struck or unstruck. */
  lemma OneRowUnstruck(db: Tables, after: Tables, lifted: set<string>, quarantineStrikes: int, id: nat, row: Activity)
    requires LedgerIsSound(db, lifted, quarantineStrikes) && id in db.activities
    requires row.agent == db.activities[id].agent && IsStruck(row) == IsStruck(db.activities[id])
    requires after.activities == db.activities[id := row] && after.strikes == db.strikes
    requires after.agents.Keys == db.agents.Keys
    requires forall a | a in db.agents ::
               after.agents[a].(firstVerifiedMs := None) == db.agents[a].(firstVerifiedMs := None)
    ensures LedgerIsSound(after, lifted, quarantineStrikes)
  {
    hide LedgerIsSound, IsStruck;
    forall a | a in after.agents
      ensures after.agents[a].strikeCount == db.agents[a].strikeCount
      ensures after.agents[a].purgedMs == db.agents[a].purgedMs
      ensures after.agents[a].status == db.agents[a].status
    {
      var x, y := after.agents[a].(firstVerifiedMs := None), db.agents[a].(firstVerifiedMs := None);
      assert x.strikeCount == y.strikeCount && x.purgedMs == y.purgedMs && x.status == y.status;
    }
    NothingStruck(db, after, lifted, quarantineStrikes);
  }

  lemma EventStrikesNobody(row: Option<Activity>, agent: string, event: IngestEvent)
    ensures row.Some? && RowIsSound(row.value) ==> IsStruck(RowAfterEvent(row, agent, event)) == IsStruck(row.value)
    ensures row.Some? ==> RowAfterEvent(row, agent, event).agent == row.value.agent
    ensures row.None? ==> !IsStruck(RowAfterEvent(row, agent, event))
  {
  }

  lemma NewEventKeepsLedger(db: Tables, lifted: set<string>, agent: string, event: IngestEvent,
                            quarantineStrikes: int, nowMs: int)
    requires LedgerIsSound(db, lifted, quarantineStrikes) && QueueIsSound(db)
    requires agent in db.agents && ExistingRow(db, agent, event.sourceRow).None?
    ensures LedgerIsSound(ApplyEvent(db, agent, event, nowMs), lifted, quarantineStrikes)
  {
    assert db.nextId !in db.activities;
    EventStrikesNobody(None, agent, event);
    NothingStruck(db, ApplyEvent(db, agent, event, nowMs), lifted, quarantineStrikes);
  }

  lemma EventKeepsLedger(db: Tables, lifted: set<string>, agent: string, event: IngestEvent, quarantineStrikes: int,
                         nowMs: int)
    requires LedgerIsSound(db, lifted, quarantineStrikes) && QueueIsSound(db)
    ensures LedgerIsSound(ApplyEvent(db, agent, event, nowMs), lifted, quarantineStrikes)
  {
    if agent in db.agents {
      var existing := ExistingRow(db, agent, event.sourceRow);
      if existing.Some? {
        var row := Some(db.activities[existing.value]);
        EventStrikesNobody(row, agent, event);
        OneRowUnstruck(db, ApplyEvent(db, agent, event, nowMs), lifted, quarantineStrikes, existing.value,
                       RowAfterEvent(row, agent, event));
      } else {
        NewEventKeepsLedger(db, lifted, agent, event, quarantineStrikes, nowMs);
      }
    }
  }

  /** A success, or the failure of a token launch, strikes nobody. */
  lemma UnstruckKeepsLedger(db: Tables, lifted: set<string>, id: nat, verdict: R.TerminalVerdict,
                            quarantineStrikes: int, nowMs: int)
    requires LedgerIsSound(db, lifted, quarantineStrikes)
    requires id in db.activities && db.activities[id].verification.Queued?
    requires verdict.Strike? ==> IsLaunchShaped(db.activities[id])
    ensures LedgerIsSound(FinalizeVerification(db, id, verdict, quarantineStrikes, nowMs), lifted, quarantineStrikes)
  {
    hide LedgerIsSound, RecordStrike;
    var after := FinalizeVerification(db, id, verdict, quarantineStrikes, nowMs);
    var row := FinalizedActivity(db.activities[id], verdict, nowMs);
    assert after.activities == db.activities[id := row] && after.strikes == db.strikes;
    OneRowUnstruck(db, after, lifted, quarantineStrikes, id, row);
  }

  lemma FinalizeKeepsLedger(db: Tables, lifted: set<string>, id: nat, verdict: R.TerminalVerdict,
                            quarantineStrikes: int, nowMs: int)
    requires LedgerIsSound(db, lifted, quarantineStrikes) && QueueIsSound(db)
    ensures LedgerIsSound(FinalizeVerification(db, id, verdict, quarantineStrikes, nowMs), lifted, quarantineStrikes)
  {
    hide LedgerIsSound, QueueIsSound, RecordStrike, RecordVerifiedSuccess;
    if id in db.activities && db.activities[id].verification.Queued? {
      if verdict.Strike? && !IsLaunchShaped(db.activities[id]) {
        StrikeKeepsLedger(db, lifted, id, verdict.reason, quarantineStrikes, nowMs);
      } else {
        UnstruckKeepsLedger(db, lifted, id, verdict, quarantineStrikes, nowMs);
      }
    }
  }

  lemma OutcomeKeepsLedger(db: Tables, lifted: set<string>, id: nat, outcome: VerifyJob.JobOutcome,
                           quarantineStrikes: int, nowMs: int)
    requires LedgerIsSound(db, lifted, quarantineStrikes) && QueueIsSound(db)
    ensures LedgerIsSound(ApplyJobOutcome(db, id, outcome, quarantineStrikes, nowMs), lifted, quarantineStrikes)
  {
    hide LedgerIsSound, FinalizeVerification;
    match outcome
    case Finalize(verdict) => FinalizeKeepsLedger(db, lifted, id, verdict, quarantineStrikes, nowMs);
    case CloseUnverifiable(_) =>
      if id in db.activities && db.activities[id].verification.Queued? {
        OneRowUnstruck(db, CloseUnverifiable(db, id), lifted, quarantineStrikes, id,
                       db.activities[id].(verification := NotQueued));
      } else {
        NothingStruck(db, CloseUnverifiable(db, id), lifted, quarantineStrikes);
      }
    case Reschedule(delayMs, _) => NothingStruck(db, RescheduleJob(db, id, delayMs, nowMs), lifted, quarantineStrikes);
  }

  lemma RetryKeepsLedger(db: Tables, lifted: set<string>, id: nat, quarantineStrikes: int, nowMs: int)
    requires LedgerIsSound(db, lifted, quarantineStrikes)
    ensures LedgerIsSound(RetryVerification(db, id, nowMs), lifted, quarantineStrikes)
  {
    if CanRetry(db, id) {
      OneRowUnstruck(db, RetryVerification(db, id, nowMs), lifted, quarantineStrikes, id,
                     db.activities[id].(verification := Queued));
    }
  }

  lemma PricingStepsKeepLedger(db: Tables, lifted: set<string>, claim: PricingClaim, write: PricingWrite,
                               leaseMs: nat, nowMs: int,
                               quarantineStrikes: int)
    requires LedgerIsSound(db, lifted, quarantineStrikes)
    ensures LedgerIsSound(ApplyPricing(db, claim, write, nowMs), lifted, quarantineStrikes)
    ensures LedgerIsSound(ClaimPricing(db, claim.id, leaseMs, nowMs), lifted, quarantineStrikes)
  {
    if claim.id in db.activities && db.activities[claim.id].pricing.PricingPending? {
      var row := db.activities[claim.id];
      OneRowUnstruck(db, ApplyPricing(db, claim, write, nowMs), lifted, quarantineStrikes, claim.id,
                     PricedActivity(row, write, nowMs));
      if CanClaimPricing(db, claim.id, nowMs) {
        OneRowUnstruck(db, ClaimPricing(db, claim.id, leaseMs, nowMs), lifted, quarantineStrikes, claim.id,
                       row.(pricingDueMs := Some(nowMs + leaseMs)));
      }
    }
  }

  lemma RegisterKeepsLedger(db: Tables, lifted: set<string>, agent: string, token: string, quarantineStrikes: int)
    requires LedgerIsSound(db, lifted, quarantineStrikes)
    ensures LedgerIsSound(Register(db, agent, token), lifted, quarantineStrikes)
  {
    hide LedgerIsSound, IsStruck;
    var after := Register(db, agent, token);
    if after != db {
      assert after == db.(agents := db.agents[agent := after.agents[agent]]);
      NothingStruck(db, after, lifted, quarantineStrikes);
    }
  }

  lemma BindKeepsLedger(db: Tables, lifted: set<string>, agent: string, token: string, proven: seq<Wallet>,
                        quarantineStrikes: int)
    requires LedgerIsSound(db, lifted, quarantineStrikes)
    ensures LedgerIsSound(BindHandshake(db, agent, token, proven), lifted, quarantineStrikes)
  {
    hide LedgerIsSound, IsStruck;
    var after := BindHandshake(db, agent, token, proven);
    assert after.activities == db.activities && after.strikes == db.strikes;
    NothingStruck(db, after, lifted, quarantineStrikes);
  }

  lemma RevokeKeepsLedger(db: Tables, lifted: set<string>, agent: string, quarantineStrikes: int, nowMs: int)
    requires LedgerIsSound(db, lifted, quarantineStrikes)
    ensures LedgerIsSound(Revoke(db, agent, nowMs), lifted, quarantineStrikes)
  {
    hide LedgerIsSound, IsStruck;
    var after := Revoke(db, agent, nowMs);
    assert after.activities == db.activities && after.strikes == db.strikes;
    NothingStruck(db, after, lifted, quarantineStrikes);
  }

  lemma RequeueKeepsLedger(db: Tables, lifted: set<string>, chainId: Option<int>, quarantineStrikes: int, nowMs: int)
    requires LedgerIsSound(db, lifted, quarantineStrikes)
    ensures LedgerIsSound(RequeueUnpriced(db, chainId, nowMs), lifted, quarantineStrikes)
  {
    NothingStruck(db, RequeueUnpriced(db, chainId, nowMs), lifted, quarantineStrikes);
  }

  lemma ClaimKeepsLedger(db: Tables, lifted: set<string>, id: nat, leaseMs: nat, quarantineStrikes: int, nowMs: int)
    requires LedgerIsSound(db, lifted, quarantineStrikes)
    ensures LedgerIsSound(ClaimJob(db, id, leaseMs, nowMs), lifted, quarantineStrikes)
  {
    NothingStruck(db, ClaimJob(db, id, leaseMs, nowMs), lifted, quarantineStrikes);
  }

  /** The steps that agents and operators take. */
  predicate ByHand(step: Step) {
    || step.Registers? || step.Binds? || step.Revokes? || step.Lifts?
    || step.Retries? || step.Reopens? || step.Requeues? || step.Purges?
  }

  lemma HandKeepsLedger(s: System, m: Moment, quarantineStrikes: int)
    requires QueueIsSound(s.db) && LedgerIsSound(s.db, s.lifted, quarantineStrikes) && ByHand(m.step)
    ensures LedgerIsSound(TablesAfter(s, m, quarantineStrikes), LiftedAfter(s, m), quarantineStrikes)
  {
    hide LedgerIsSound, QueueIsSound, Register, BindHandshake, Revoke, RetryVerification, RequeueUnpriced, PurgeAgent;
    match m.step
    case Registers(agent, token) => RegisterKeepsLedger(s.db, s.lifted, agent, token, quarantineStrikes);
    case Binds(agent, token, proven) => BindKeepsLedger(s.db, s.lifted, agent, token, proven, quarantineStrikes);
    case Revokes(agent) => RevokeKeepsLedger(s.db, s.lifted, agent, quarantineStrikes, m.nowMs);
    case Lifts(agent) =>
      if agent in s.db.agents && s.db.agents[agent].status.Quarantined? {
        LiftKeepsLedger(s.db, s.lifted, agent, quarantineStrikes);
      }
    case Retries(id) => RetryKeepsLedger(s.db, s.lifted, id, quarantineStrikes, m.nowMs);
    case Reopens(id) =>
      if CanReopen(s.db, id) {
        ReopenKeepsLedger(s.db, s.lifted, id, quarantineStrikes, m.nowMs);
      }
    case Requeues(chainId) => RequeueKeepsLedger(s.db, s.lifted, chainId, quarantineStrikes, m.nowMs);
    case Purges(agent) => PurgeKeepsLedger(s.db, s.lifted, agent, quarantineStrikes, m.nowMs);
  }

  lemma WorkKeepsLedger(s: System, m: Moment, quarantineStrikes: int)
    requires QueueIsSound(s.db) && LedgerIsSound(s.db, s.lifted, quarantineStrikes) && !ByHand(m.step)
    ensures LedgerIsSound(TablesAfter(s, m, quarantineStrikes), LiftedAfter(s, m), quarantineStrikes)
  {
    hide LedgerIsSound, QueueIsSound, ApplyEvent, ClaimJob, ApplyJobOutcome, ApplyPricing, ClaimPricing;
    match m.step
    case Ingests(agent, event) => EventKeepsLedger(s.db, s.lifted, agent, event, quarantineStrikes, m.nowMs);
    case ClaimsJob(id, leaseMs) => ClaimKeepsLedger(s.db, s.lifted, id, leaseMs, quarantineStrikes, m.nowMs);
    case AppliesJobOutcome(id, outcome) => OutcomeKeepsLedger(s.db, s.lifted, id, outcome, quarantineStrikes, m.nowMs);
    case ClaimsPricing(id, leaseMs) =>
      var claim := PricingClaim(id, "", Bucket(0, "", VerifyJob.Swap), None, 0);
      PricingStepsKeepLedger(s.db, s.lifted, claim, Abandon, leaseMs, m.nowMs, quarantineStrikes);
    case AppliesPricing(claim, write) =>
      if claim < |s.claims| {
        PricingStepsKeepLedger(s.db, s.lifted, s.claims[claim], write, 0, m.nowMs, quarantineStrikes);
      }
  }

  lemma NextKeepsLedger(s: System, m: Moment, quarantineStrikes: int)
    requires QueueIsSound(s.db) && LedgerIsSound(s.db, s.lifted, quarantineStrikes)
    ensures LedgerIsSound(TablesAfter(s, m, quarantineStrikes), LiftedAfter(s, m), quarantineStrikes)
  {
    if ByHand(m.step) {
      HandKeepsLedger(s, m, quarantineStrikes);
    } else {
      WorkKeepsLedger(s, m, quarantineStrikes);
    }
  }

  /** In every run: an activity has exactly one strike row while it is struck and none otherwise, and a purged one
      has none; the count of an agent no operator ever lifted covers its rows; until an agent is purged its rows cover
      its count, and if it is quarantined and was never lifted it has the threshold. */
  lemma {:induction false} StrikeLedgerHolds(moments: seq<Moment>, quarantineStrikes: int)
    ensures var s := Run(moments, quarantineStrikes);
            && (forall id: nat ::
                  RowsFor(s.db.strikes, id) == if id in s.db.activities && IsStruck(s.db.activities[id]) then 1 else 0)
            && RowsNameTheirAgent(s.db.activities, s.db.strikes, s.db.agents.Keys)
            && CountsMatch(s.db.agents, s.db.strikes, s.lifted, quarantineStrikes)
  {
    if moments != [] {
      var earlier := moments[..|moments| - 1];
      StrikeLedgerHolds(earlier, quarantineStrikes);
      QueueStaysConsistent(earlier, quarantineStrikes);
      NextKeepsLedger(Run(earlier, quarantineStrikes), moments[|moments| - 1], quarantineStrikes);
    }
  }

  lemma LedgerHolds(moments: seq<Moment>, quarantineStrikes: int)
    ensures LedgerIsSound(Run(moments, quarantineStrikes).db, Run(moments, quarantineStrikes).lifted, quarantineStrikes)
  {
    hide Run;
    StrikeLedgerHolds(moments, quarantineStrikes);
  }

  /** What a reopen that ends a quarantine must leave: fewer independent shapes than the threshold. */
  ghost predicate ReopenIsSafe(db: Tables, id: nat, quarantineStrikes: int, nowMs: int)
    requires CanReopen(db, id)
  {
    var after, agent := ReopenVerification(db, id, quarantineStrikes, nowMs), db.activities[id].agent;
    && agent in db.agents && agent in after.agents
    && (db.agents[agent].status.Quarantined? && after.agents[agent].status.Active? ==>
          |IndependentShapes(after.strikes, after.activities, agent)| < quarantineStrikes)
  }

  /** No reopen ends the quarantine of an agent no operator ever lifted, purged or not, while as many independent shapes
      as the threshold remain. If the agent was never purged either, the quarantine ends exactly when the reopen
      withdraws a strike and leaves fewer strikes than the threshold. */
  lemma ReopenLiftsOnlyBelowThreshold(moments: seq<Moment>, quarantineStrikes: int, id: nat, nowMs: int)
    requires CanReopen(Run(moments, quarantineStrikes).db, id)
    requires Run(moments, quarantineStrikes).db.activities[id].agent !in Run(moments, quarantineStrikes).lifted
    ensures var db := Run(moments, quarantineStrikes).db;
            var after, agent := ReopenVerification(db, id, quarantineStrikes, nowMs), db.activities[id].agent;
            && ReopenIsSafe(db, id, quarantineStrikes, nowMs)
            && (db.agents[agent].status.Quarantined? && db.agents[agent].purgedMs.None? ==>
                  (after.agents[agent].status.Active? <==>
                     RowsFor(db.strikes, id) == 1 && RowsOf(after.strikes, agent) < quarantineStrikes))
  {
    hide Run, RowsFor, RowsOf, IndependentShapes, OneRowPerStruckActivity, RowsNameTheirAgent, IndexMatches, JobsMatch,
      WithoutActivity;
    var s := Run(moments, quarantineStrikes);
    LedgerHolds(moments, quarantineStrikes);
    QueueStaysConsistent(moments, quarantineStrikes);
    var after, agent := ReopenVerification(s.db, id, quarantineStrikes, nowMs), s.db.activities[id].agent;
    ReopenWithdraws(s.db, id, quarantineStrikes, nowMs, id, agent);
    ReopenKeepsLedger(s.db, s.lifted, id, quarantineStrikes, nowMs);
    ShapesAreFewer(after.strikes, after.activities, agent);
    assert after.agents[agent] == RestoredAgent(s.db.agents[agent], StrikesWithdrawn(s.db, id), quarantineStrikes).0;
  }

  /** A strike quarantines its agent exactly when its independent shapes reach the threshold, whatever the count. */
  lemma StrikeQuarantinesAtThreshold(db: Tables, id: nat, reason: R.StrikeReason, quarantineStrikes: int, nowMs: int)
    requires QueueIsSound(db)
    requires id in db.activities && db.activities[id].verification.Queued? && !IsLaunchShaped(db.activities[id])
    ensures var after := FinalizeVerification(db, id, R.Strike(reason), quarantineStrikes, nowMs);
            var agent := db.activities[id].agent;
            && agent in db.agents && agent in after.agents
            && (after.agents[agent].status.Quarantined? <==>
                  db.agents[agent].status.Quarantined? || |IndependentShapes(after.strikes, after.activities,
                                                                             agent)| >= quarantineStrikes)
            && (forall other | other in db.agents && other != agent :: after.agents[other] == db.agents[other])
  {
    hide IndependentShapes;
  }
}
