/** What an operator's lift leaves behind: the count is forgotten and the strike rows stay
    (apps/server/src/cli/quarantine.ts, apps/server/src/cli/verify-reopen.ts). */
module Lifting {
  import opened Wrappers
  import opened Activities
  import opened Database
  import opened Protocol
  import opened StrikeLedger
  import Chains
  import RowSteps
  import VerifyJob
  import R = Receipt

  // Shapes of strike rows

  /** The shape of one row, if it is the agent's and names an activity that is there. */
  function ShapesIn(strike: StrikeRow, activities: map<nat, Activity>, agent: string): set<Shape> {
    if strike.agent == agent && strike.activityId.Some? && strike.activityId.value in activities
    then {ShapeOf(strike, activities[strike.activityId.value])} else {}
  }

  lemma {:induction false} ShapesAppend(strikes: seq<StrikeRow>, last: StrikeRow, activities: map<nat, Activity>,
                                        agent: string)
    ensures IndependentShapes(strikes + [last], activities, agent)
            == IndependentShapes(strikes, activities, agent) + ShapesIn(last, activities, agent)
  {
    if strikes == [] {
      assert strikes + [last] == [last];
      assert [last][1..] == [];
    } else {
      assert (strikes + [last])[1..] == strikes[1..] + [last];
      ShapesAppend(strikes[1..], last, activities, agent);
    }
  }

  /** The shapes of the rows depend only on what makes the shape of the activities they name. */
  lemma {:induction false} SameRowsSameShapes(strikes: seq<StrikeRow>, activities: map<nat, Activity>,
                                              after: map<nat, Activity>, agent: string)
    requires forall s, id: nat | s in strikes && s.activityId == Some(id) ::
               && (id in activities <==> id in after)
               && (id in activities ==> ShapeOf(s, activities[id]) == ShapeOf(s, after[id]))
    ensures IndependentShapes(strikes, after, agent) == IndependentShapes(strikes, activities, agent)
  {
    if strikes != [] {
      assert strikes[0] in strikes;
      assert forall s | s in strikes[1..] :: s in strikes;
      SameRowsSameShapes(strikes[1..], activities, after, agent);
    }
  }

  lemma SubsetIsNoLarger(a: set<Shape>, b: set<Shape>)
    requires a <= b
    ensures |a| <= |b|
  {
    assert b == a + (b - a);
    assert |b| == |a| + |b - a|;
  }

  lemma {:induction false} NothingToWithdraw(strikes: seq<StrikeRow>, id: nat)
    requires RowsFor(strikes, id) == 0
    ensures WithoutActivity(strikes, id) == strikes
  {
    if strikes != [] {
      NothingToWithdraw(strikes[1..], id);
      assert strikes == [strikes[0]] + strikes[1..];
    }
  }

  lemma {:induction false} LastIsWithdrawn(strikes: seq<StrikeRow>, last: StrikeRow, id: nat)
    requires last.activityId == Some(id)
    ensures WithoutActivity(strikes + [last], id) == WithoutActivity(strikes, id)
  {
    if strikes == [] {
      assert strikes + [last] == [last] && [last][1..] == [];
    } else {
      assert (strikes + [last])[1..] == strikes[1..] + [last];
      LastIsWithdrawn(strikes[1..], last, id);
    }
  }

  // Lifted, struck again and reopened

  function Lifted(db: Tables, id: nat): Tables
    requires id in db.activities
  {
    LiftQuarantine(db, db.activities[id].agent)
  }

  function StruckAgain(db: Tables, id: nat, reason: R.StrikeReason, quarantineStrikes: int, nowMs: int): Tables
    requires id in db.activities
  {
    FinalizeVerification(Lifted(db, id), id, R.Strike(reason), quarantineStrikes, nowMs)
  }

  /** A quarantined agent with as many shapes as the threshold, and one more of its activities about to be judged. */
  ghost predicate MayBeStruckAgain(db: Tables, id: nat, quarantineStrikes: int) {
    && QueueIsSound(db) && OneRowPerStruckActivity(db.activities, db.strikes)
    && id in db.activities && db.activities[id].verification.Queued? && !IsLaunchShaped(db.activities[id])
    && db.agents[db.activities[id].agent].status.Quarantined?
    && |IndependentShapes(db.strikes, db.activities, db.activities[id].agent)| >= quarantineStrikes
  }

  /** The activities are as before but for the one verdict, which is part of no shape. */
  lemma VerdictChangesNoShape(db: Tables, id: nat, row: Activity, agent: string)
    requires id in db.activities && row == db.activities[id].(verification := row.verification,
               verifiedAtMs := row.verifiedAtMs, blockTimeMs := row.blockTimeMs)
    ensures IndependentShapes(db.strikes, db.activities[id := row], agent)
            == IndependentShapes(db.strikes, db.activities, agent)
  {
    SameRowsSameShapes(db.strikes, db.activities, db.activities[id := row], agent);
  }

  lemma LiftForgetsTheCount(db: Tables, id: nat, quarantineStrikes: int)
    requires MayBeStruckAgain(db, id, quarantineStrikes)
    ensures var lifted, agent := Lifted(db, id), db.activities[id].agent;
            && lifted.activities == db.activities && lifted.jobs == db.jobs
            && lifted.strikes == db.strikes + [StrikeRow(agent, None, OperatorLift)]
            && agent in lifted.agents && lifted.agents[agent].status.Active? && lifted.agents[agent].strikeCount == 0
  {
    hide IndependentShapes, OneRowPerStruckActivity, IndexMatches, JobsMatch;
  }

  /** The next strike quarantines at once, with a count of one. */
  lemma NextStrikeQuarantines(db: Tables, id: nat, reason: R.StrikeReason, quarantineStrikes: int, nowMs: int)
    requires MayBeStruckAgain(db, id, quarantineStrikes)
    ensures var struck, agent := StruckAgain(db, id, reason, quarantineStrikes, nowMs), db.activities[id].agent;
            && struck.strikes == Lifted(db, id).strikes + [StrikeRow(agent, Some(id), Verdict(reason))]
            && struck.activities == db.activities[id := FinalizedActivity(db.activities[id], R.Strike(reason), nowMs)]
            && agent in struck.agents && struck.agents[agent].status.Quarantined?
            && struck.agents[agent].strikeCount == 1
  {
    hide IndependentShapes, OneRowPerStruckActivity, QueueIsSound, RowsFor, RowsOf, LiftQuarantine;
    var lifted, agent := Lifted(db, id), db.activities[id].agent;
    var strike := StrikeRow(agent, Some(id), Verdict(reason));
    var row := FinalizedActivity(db.activities[id], R.Strike(reason), nowMs);
    LiftForgetsTheCount(db, id, quarantineStrikes);
    ShapesAppend(db.strikes, StrikeRow(agent, None, OperatorLift), db.activities[id := row], agent);
    ShapesAppend(lifted.strikes, strike, db.activities[id := row], agent);
    VerdictChangesNoShape(db, id, row, agent);
    SubsetIsNoLarger(IndependentShapes(db.strikes, db.activities, agent),
                     IndependentShapes(lifted.strikes + [strike], db.activities[id := row], agent));
  }

  /** The reopen withdraws that strike alone, so it ends the quarantine and leaves every shape there was. */
  lemma ReopenAfterALiftKeepsShapes(db: Tables, id: nat, reason: R.StrikeReason, quarantineStrikes: int, strikeMs: int,
                                    reopenMs: int)
    requires MayBeStruckAgain(db, id, quarantineStrikes) && quarantineStrikes >= 1
    ensures var struck, agent := StruckAgain(db, id, reason, quarantineStrikes, strikeMs), db.activities[id].agent;
            && CanReopen(struck, id) && struck.agents[agent].status.Quarantined?
            && var after := ReopenVerification(struck, id, quarantineStrikes, reopenMs);
               && agent in after.agents && after.agents[agent].status.Active?
               && IndependentShapes(after.strikes, after.activities, agent)
                  == IndependentShapes(db.strikes, db.activities, agent)
               && !ReopenIsSafe(struck, id, quarantineStrikes, reopenMs)
  {
    hide IndependentShapes, StruckAgain, Lifted, IndexMatches, JobsMatch, RowsFor, WithoutActivity;
    var struck, agent := StruckAgain(db, id, reason, quarantineStrikes, strikeMs), db.activities[id].agent;
    var lift, note := StrikeRow(agent, None, OperatorLift), StrikeRow(agent, None, OperatorReopen);
    LiftForgetsTheCount(db, id, quarantineStrikes);
    NextStrikeQuarantines(db, id, reason, quarantineStrikes, strikeMs);
    assert RowsFor(db.strikes, id) == 0;
    RowsForAppend(db.strikes, lift, id);
    NothingToWithdraw(db.strikes + [lift], id);
    LastIsWithdrawn(db.strikes + [lift], StrikeRow(agent, Some(id), Verdict(reason)), id);
    var after := ReopenVerification(struck, id, quarantineStrikes, reopenMs);
    assert StrikesWithdrawn(struck, id) == 1;
    assert after.strikes == db.strikes + [lift] + [note];
    ShapesAppend(db.strikes, lift, after.activities, agent);
    ShapesAppend(db.strikes + [lift], note, after.activities, agent);
    VerdictChangesNoShape(db, id, after.activities[id], agent);
    assert after.activities == db.activities[id := after.activities[id]];
  }

  // Every threshold can be reached

  function SourceRow(k: nat): string {
    seq(k, _ => 'x')
  }

  /** A swap on the chain with this number. */
  function SwapOn(k: nat): IngestEvent {
    IngestEvent(SourceRow(k), VerifyJob.Swap, "swap", Confirmed, "dex", Chains.Eip155, k, None, Some("0xabc"), Some(0))
  }

  function ShapeOn(k: nat): Shape {
    Shape(Verdict(R.TxReverted), "dex", VerifyJob.Swap, "swap", Chains.Eip155, k)
  }

  function Ingested(k: nat): Moment {
    Moment(Ingests("agent", SwapOn(k)), 0)
  }

  function Reverted(k: nat): Moment {
    Moment(AppliesJobOutcome(k, VerifyJob.Finalize(R.Strike(R.TxReverted))), 0)
  }

  /** One agent registers and is struck for swaps on `k` chains. */
  function Campaign(k: nat): seq<Moment> {
    if k == 0 then [Moment(Registers("agent", "token"), 0)] else Campaign(k - 1) + [Ingested(k - 1)] + [Reverted(k - 1)]
  }

  ghost predicate StruckOn(db: Tables, k: nat, quarantineStrikes: int) {
    && QueueIsSound(db) && db.nextId == k && "agent" in db.agents
    && (forall id | id in db.activities :: |db.activities[id].sourceRow| < k)
    && (forall shape :: shape in IndependentShapes(db.strikes, db.activities, "agent") <==>
          exists i: nat | i < k :: shape == ShapeOn(i))
    && |IndependentShapes(db.strikes, db.activities, "agent")| == k
    && (1 <= k && quarantineStrikes <= k ==> db.agents["agent"].status.Quarantined?)
  }

  lemma RunOneMore(moments: seq<Moment>, m: Moment, quarantineStrikes: int)
    ensures Run(moments + [m], quarantineStrikes) == Next(Run(moments, quarantineStrikes), m, quarantineStrikes)
  {
    hide Next;
    assert (moments + [m])[..|moments|] == moments;
  }

  /** The next swap is inserted, queued, under the next id, and adds no shape. */
  lemma SwapIsQueued(db: Tables, k: nat, quarantineStrikes: int)
    requires StruckOn(db, k, quarantineStrikes) && RowsNameTheirAgent(db.activities, db.strikes, db.agents.Keys)
    ensures var after := ApplyEvent(db, "agent", SwapOn(k), 0);
            && QueueIsSound(after) && after.nextId == k + 1
            && after.activities == db.activities[k := InsertedActivity("agent", SwapOn(k))]
            && after.strikes == db.strikes && after.agents == db.agents
            && IndependentShapes(after.strikes, after.activities, "agent")
               == IndependentShapes(db.strikes, db.activities, "agent")
  {
    hide IndependentShapes, Enqueues;
    assert ExistingRow(db, "agent", SourceRow(k)).None?;
    EventKeepsQueue(db, "agent", SwapOn(k), 0);
    assert k !in db.activities;
    SameRowsSameShapes(db.strikes, db.activities, db.activities[k := InsertedActivity("agent", SwapOn(k))], "agent");
  }

  lemma OneMoreShape(before: set<Shape>, after: set<Shape>, k: nat)
    requires forall shape :: shape in before <==> exists i: nat | i < k :: shape == ShapeOn(i)
    requires |before| == k && after == before + {ShapeOn(k)}
    ensures forall shape :: shape in after <==> exists i: nat | i < k + 1 :: shape == ShapeOn(i)
    ensures |after| == k + 1
  {
    forall i: nat | i < k
      ensures ShapeOn(i) != ShapeOn(k)
    {
      assert ShapeOn(i).chainId != ShapeOn(k).chainId;
    }
    assert ShapeOn(k) !in before;
  }

  lemma QueuedSwapIsStruck(db: Tables, k: nat, quarantineStrikes: int)
    requires QueueIsSound(db) && k in db.activities && db.activities[k] == InsertedActivity("agent", SwapOn(k))
    ensures var after := FinalizeVerification(db, k, R.Strike(R.TxReverted), quarantineStrikes, 0);
            && after.nextId == db.nextId
            && after.activities == db.activities[k := FinalizedActivity(db.activities[k], R.Strike(R.TxReverted), 0)]
            && IndependentShapes(after.strikes, after.activities, "agent")
               == IndependentShapes(db.strikes, db.activities, "agent") + {ShapeOn(k)}
            && "agent" in after.agents
            && (after.agents["agent"].status.Quarantined? <==>
                  || db.agents["agent"].status.Quarantined?
                  || |IndependentShapes(after.strikes, after.activities, "agent")| >= quarantineStrikes)
  {
    hide IndependentShapes, IndexMatches, JobsMatch, RowsFor, RowsOf, FinalizeVerification;
    var after := FinalizeVerification(db, k, R.Strike(R.TxReverted), quarantineStrikes, 0);
    var row := FinalizedActivity(db.activities[k], R.Strike(R.TxReverted), 0);
    var strike := StrikeRow("agent", Some(k), Verdict(R.TxReverted));
    StrikeRecords(db, k, R.TxReverted, quarantineStrikes, 0, 0, "");
    RowSteps.OutcomeKeepsNextId(db, k, VerifyJob.Finalize(R.Strike(R.TxReverted)), quarantineStrikes, 0);
    StrikeQuarantinesAtThreshold(db, k, R.TxReverted, quarantineStrikes, 0);
    ShapesAppend(db.strikes, strike, after.activities, "agent");
    VerdictChangesNoShape(db, k, row, "agent");
    assert ShapesIn(strike, after.activities, "agent") == {ShapeOn(k)};
  }

  /** And its strike adds the shape of its chain. */
  lemma SwapIsStruck(db: Tables, k: nat, quarantineStrikes: int)
    requires StruckOn(db, k, quarantineStrikes) && RowsNameTheirAgent(db.activities, db.strikes, db.agents.Keys)
    ensures var queued := ApplyEvent(db, "agent", SwapOn(k), 0);
            StruckOn(FinalizeVerification(queued, k, R.Strike(R.TxReverted), quarantineStrikes, 0), k + 1,
                     quarantineStrikes)
  {
    hide IndependentShapes, ApplyEvent, FinalizeVerification, QueueIsSound, RowsNameTheirAgent;
    var queued := ApplyEvent(db, "agent", SwapOn(k), 0);
    var after := FinalizeVerification(queued, k, R.Strike(R.TxReverted), quarantineStrikes, 0);
    SwapIsQueued(db, k, quarantineStrikes);
    FinalizeKeepsQueue(queued, k, R.Strike(R.TxReverted), quarantineStrikes, 0);
    QueuedSwapIsStruck(queued, k, quarantineStrikes);
    OneMoreShape(IndependentShapes(db.strikes, db.activities, "agent"),
                 IndependentShapes(after.strikes, after.activities, "agent"), k);
  }

  lemma {:induction false} CampaignStrikes(k: nat, quarantineStrikes: int)
    ensures StruckOn(Run(Campaign(k), quarantineStrikes).db, k, quarantineStrikes)
  {
    hide StruckOn, ApplyEvent, FinalizeVerification;
    if k == 0 {
      CampaignStarts(quarantineStrikes);
    } else {
      var earlier := Campaign(k - 1);
      CampaignStrikes(k - 1, quarantineStrikes);
      StrikeLedgerHolds(earlier, quarantineStrikes);
      RunOneMore(earlier, Ingested(k - 1), quarantineStrikes);
      RunOneMore(earlier + [Ingested(k - 1)], Reverted(k - 1), quarantineStrikes);
      SwapIsStruck(Run(earlier, quarantineStrikes).db, k - 1, quarantineStrikes);
    }
  }

  lemma CampaignStarts(quarantineStrikes: int)
    ensures StruckOn(Run(Campaign(0), quarantineStrikes).db, 0, quarantineStrikes)
  {
    var start := Moment(Registers("agent", "token"), 0);
    assert [start][..0] == [] && Run([], quarantineStrikes) == START;
    QueueStaysConsistent([start], quarantineStrikes);
    assert Run([start], quarantineStrikes).db == Register(EMPTY, "agent", "token");
  }

  /** The campaign up to the threshold and one swap more, a lift, and that swap judged. */
  function LiftedCampaign(k: nat): seq<Moment> {
    Campaign(k) + [Ingested(k)] + [Moment(Lifts("agent"), 0)] + [Reverted(k)]
  }

  lemma CampaignMayGoOn(k: nat, quarantineStrikes: int)
    requires 1 <= k && quarantineStrikes <= k
    ensures var db := Run(Campaign(k) + [Ingested(k)], quarantineStrikes).db;
            && MayBeStruckAgain(db, k, quarantineStrikes)
            && k in db.activities && db.activities[k].agent == "agent"
  {
    hide IndependentShapes, ApplyEvent, Run, IndexMatches, JobsMatch;
    CampaignStrikes(k, quarantineStrikes);
    LedgerHolds(Campaign(k), quarantineStrikes);
    RunOneMore(Campaign(k), Ingested(k), quarantineStrikes);
    SwapIsQueued(Run(Campaign(k), quarantineStrikes).db, k, quarantineStrikes);
    LedgerHolds(Campaign(k) + [Ingested(k)], quarantineStrikes);
  }

  lemma CampaignEnds(k: nat, quarantineStrikes: int)
    requires var db := Run(Campaign(k) + [Ingested(k)], quarantineStrikes).db;
             k in db.activities && db.activities[k].agent == "agent"
    ensures Run(LiftedCampaign(k), quarantineStrikes).db
            == StruckAgain(Run(Campaign(k) + [Ingested(k)], quarantineStrikes).db, k, R.TxReverted,
                           quarantineStrikes, 0)
  {
    hide FinalizeVerification, LiftQuarantine, Run;
    var queued := Campaign(k) + [Ingested(k)];
    RunOneMore(queued, Moment(Lifts("agent"), 0), quarantineStrikes);
    RunOneMore(queued + [Moment(Lifts("agent"), 0)], Reverted(k), quarantineStrikes);
  }

  /** After a lift a reachable reopen ends a quarantine while the threshold is met, for every threshold. */
  lemma SomeReopenIsUnsafe(quarantineStrikes: int)
    requires quarantineStrikes >= 1
    ensures var db := Run(LiftedCampaign(quarantineStrikes), quarantineStrikes).db;
            CanReopen(db, quarantineStrikes) && !ReopenIsSafe(db, quarantineStrikes, quarantineStrikes, 0)
  {
    hide *;
    CampaignMayGoOn(quarantineStrikes, quarantineStrikes);
    CampaignEnds(quarantineStrikes, quarantineStrikes);
    var queued := Run(Campaign(quarantineStrikes) + [Ingested(quarantineStrikes)], quarantineStrikes).db;
    StruckAgainIsUnsafe(queued, quarantineStrikes, quarantineStrikes);
  }

  lemma StruckAgainIsUnsafe(db: Tables, id: nat, quarantineStrikes: int)
    requires MayBeStruckAgain(db, id, quarantineStrikes) && quarantineStrikes >= 1
    ensures id in db.activities
    ensures var struck := StruckAgain(db, id, R.TxReverted, quarantineStrikes, 0);
            CanReopen(struck, id) && !ReopenIsSafe(struck, id, quarantineStrikes, 0)
  {
    hide ReopenIsSafe, StruckAgain, IndependentShapes;
    ReopenAfterALiftKeepsShapes(db, id, R.TxReverted, quarantineStrikes, 0, 0);
  }

  /** In every run every reopen leaves fewer shapes than the threshold when it ends a quarantine, of agents that were
      ever lifted or only of others. */
  ghost predicate ReopensAreSafe(quarantineStrikes: int, liftedToo: bool) {
    forall moments, id, nowMs |
      && CanReopen(Run(moments, quarantineStrikes).db, id)
      && (liftedToo
          || Run(moments, quarantineStrikes).db.activities[id].agent !in Run(moments, quarantineStrikes).lifted) ::
      ReopenIsSafe(Run(moments, quarantineStrikes).db, id, quarantineStrikes, nowMs)
  }

  /** A threshold that every count meets ends no quarantine. */
  lemma NoThresholdNoReturn(moments: seq<Moment>, quarantineStrikes: int, id: nat, nowMs: int)
    requires quarantineStrikes <= 0 && CanReopen(Run(moments, quarantineStrikes).db, id)
    ensures ReopenIsSafe(Run(moments, quarantineStrikes).db, id, quarantineStrikes, nowMs)
  {
    hide Run, IndependentShapes, WithoutActivity, IndexMatches, JobsMatch;
    QueueStaysConsistent(moments, quarantineStrikes);
  }

  /** Reopens are safe in every run exactly for agents that no operator ever lifted, whatever the threshold, unless
      the threshold is met by no strikes at all. */
  lemma ReopensAreSafeExactlyWithoutLifts(quarantineStrikes: int, liftedToo: bool)
    ensures ReopensAreSafe(quarantineStrikes, liftedToo) <==> !liftedToo || quarantineStrikes <= 0
  {
    hide Run, ReopenIsSafe;
    if quarantineStrikes >= 1 && liftedToo {
      SomeReopenIsUnsafe(quarantineStrikes);
    } else {
      forall moments, id, nowMs |
        && CanReopen(Run(moments, quarantineStrikes).db, id)
        && (liftedToo
            || Run(moments, quarantineStrikes).db.activities[id].agent !in Run(moments, quarantineStrikes).lifted)
        ensures ReopenIsSafe(Run(moments, quarantineStrikes).db, id, quarantineStrikes, nowMs)
      {
        if liftedToo {
          NoThresholdNoReturn(moments, quarantineStrikes, id, nowMs);
        } else {
          ReopenLiftsOnlyBelowThreshold(moments, quarantineStrikes, id, nowMs);
        }
      }
    }
  }
}
