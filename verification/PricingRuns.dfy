/** How often a row is put back in a run of the whole system, whose pricing workers write only what they decided. */
module PricingRuns {
  import opened Wrappers
  import opened Activities
  import opened Database
  import opened Protocol
  import opened RowSteps
  import opened PricingAttempts
  import opened PricingDecision
  import Backoff
  import Chains
  import Receipt
  import VerifyJob

  /** A moment, and the worker whose step it is; steps other than those of pricing have none. */
  datatype Doing = Doing(moment: Moment, worker: nat)

  /** A worker's latest claim of a row, and the writes it may still make with it. */
  datatype Hold = Hold(claim: nat, left: nat)

  /** The system, and what each worker holds of each row. */
  datatype Watched = Watched(system: System, holds: map<(nat, nat), Hold>)

  /** The number of pricing workers, the writes of one claim, and the configuration. */
  datatype Terms = Terms(passes: nat, writes: nat, maxAttempts: int, schedule: seq<string>, quarantineStrikes: int)

  predicate MayWrite(w: Watched, worker: nat, claim: nat) {
    && claim < |w.system.claims| && (worker, w.system.claims[claim].id) in w.holds
    && w.holds[(worker, w.system.claims[claim].id)].claim == claim
    && w.holds[(worker, w.system.claims[claim].id)].left > 0
  }

  /** What `priceRow` decides for a claim, or `containRowFailure` when something threw. */
  ghost predicate IsOutcome(claim: PricingClaim, outcome: PricingOutcome, budget: RetryBudget) {
    || (exists legIn, legOut :: DecidePricingOutcome(budget, claim.settledAtMs, legIn, legOut) == Ok(outcome))
    || PricingRetryOutcome(budget, None) == Ok(outcome)
  }

  /** The write is that of an outcome on the attempts the claim read, whatever the prices are and the time is. */
  ghost predicate Decided(claim: PricingClaim, write: PricingWrite, terms: Terms) {
    exists nowMs, outcome, numeric ::
      write == WriteOf(outcome, numeric)
      && IsOutcome(claim, outcome, RetryBudget(claim.attempts, terms.maxAttempts, terms.schedule, nowMs))
  }

  ghost predicate IsDisciplined(w: Watched, doing: Doing, terms: Terms) {
    match doing.moment.step
    case ClaimsPricing(_, _) => doing.worker < terms.passes
    case AppliesPricing(claim, write) =>
      doing.worker < terms.passes && MayWrite(w, doing.worker, claim) && Decided(w.system.claims[claim], write, terms)
    case _ => true
  }

  function HoldsAfter(w: Watched, doing: Doing, writes: nat): map<(nat, nat), Hold> {
    match doing.moment.step
    case ClaimsPricing(id, _) =>
      if CanClaimPricing(w.system.db, id, doing.moment.nowMs)
      then w.holds[(doing.worker, id) := Hold(|w.system.claims|, writes)] else w.holds
    case AppliesPricing(claim, _) =>
      if !MayWrite(w, doing.worker, claim) then w.holds
      else
        var key := (doing.worker, w.system.claims[claim].id);
        w.holds[key := Hold(claim, w.holds[key].left - 1)]
    case _ => w.holds
  }

  function NextWatched(w: Watched, doing: Doing, terms: Terms): Watched {
    Watched(Next(w.system, doing.moment, terms.quarantineStrikes), HoldsAfter(w, doing, terms.writes))
  }

  function Watch(doings: seq<Doing>, terms: Terms): Watched {
    if doings == [] then Watched(START, map[])
    else
      NextWatched(Watch(doings[..|doings| - 1], terms), doings[|doings| - 1], terms)
  }

  /** Each worker writes at most `writes` times with a claim, only with its latest claim of a row, and only what was
      decided from what the claim read. */
  ghost predicate Disciplined(doings: seq<Doing>, terms: Terms) {
    doings == [] ||
    (&& Disciplined(doings[..|doings| - 1], terms)
     && IsDisciplined(Watch(doings[..|doings| - 1], terms), doings[|doings| - 1], terms))
  }

  function MomentsOf(doings: seq<Doing>): seq<Moment> {
    if doings == [] then [] else MomentsOf(doings[..|doings| - 1]) + [doings[|doings| - 1].moment]
  }

  lemma {:induction false} WatchIsRun(doings: seq<Doing>, terms: Terms)
    ensures Watch(doings, terms).system == Run(MomentsOf(doings), terms.quarantineStrikes)
  {
    if doings != [] {
      WatchIsRun(doings[..|doings| - 1], terms);
      assert MomentsOf(doings)[..|MomentsOf(doings)| - 1] == MomentsOf(doings[..|doings| - 1]);
    }
  }

  // What the workers hold of one row

  ghost predicate HoldsAreSound(w: Watched, writes: nat) {
    forall key | key in w.holds ::
      && w.holds[key].claim < |w.system.claims| && w.system.claims[w.holds[key].claim].id == key.1
      && w.holds[key].left <= writes
  }

  function SlotAt(w: Watched, id: nat, worker: nat): Slot {
    if (worker, id) in w.holds && w.holds[(worker, id)].claim < |w.system.claims|
    then Slot(w.system.claims[w.holds[(worker, id)].claim].attempts, w.holds[(worker, id)].left) else Slot(0, 0)
  }

  function SlotsFor(w: Watched, id: nat, passes: nat): seq<Slot> {
    seq(passes, k requires 0 <= k < passes => SlotAt(w, id, k))
  }

  lemma SlotsAreSlots(w: Watched, id: nat, terms: Terms)
    requires HoldsAreSound(w, terms.writes)
    ensures SlotsOf(SlotsFor(w, id, terms.passes), terms.passes, terms.writes)
  {
  }

  /** A pending row's attempts and the writes in flight are within the budget; a row that is no longer pending was
      put back no more than that, and counts one attempt more when it was exhausted. */
  ghost predicate CountIsBounded(row: Activity, slots: seq<Slot>, terms: Terms) {
    var most := MostPutBacks(terms.passes, terms.writes, terms.maxAttempts);
    match row.pricing
    case PricingPending =>
      WithinBudget(Attempts(row.pricingAttempts, slots), terms.passes, terms.writes, terms.maxAttempts)
    case ServerPriced => row.pricingAttempts <= most
    case Unpriced => row.pricingAttempts <= most + 1
  }

  ghost predicate RunIsBounded(w: Watched, terms: Terms) {
    && HoldsAreSound(w, terms.writes)
    && forall id | id in w.system.db.activities ::
         CountIsBounded(w.system.db.activities[id], SlotsFor(w, id, terms.passes), terms)
  }

  lemma HoldsStaySound(w: Watched, doing: Doing, terms: Terms)
    requires HoldsAreSound(w, terms.writes)
    ensures HoldsAreSound(NextWatched(w, doing, terms), terms.writes)
  {
    hide TablesAfter, LiftedAfter, CanClaimPricing, AnchorMs, AggregateBucket, SettledAtMs;
  }

  /** What a step does to the slots of one row: a claim fills the worker's own, a write uses it up by one. */
  lemma SlotsMove(w: Watched, doing: Doing, id: nat, terms: Terms)
    requires HoldsAreSound(w, terms.writes)
    requires IsDisciplined(w, doing, terms)
    ensures var after := NextWatched(w, doing, terms);
            var slots := SlotsFor(w, id, terms.passes);
            SlotsFor(after, id, terms.passes) ==
            match doing.moment.step
            case ClaimsPricing(of, _) =>
              if of == id && CanClaimPricing(w.system.db, id, doing.moment.nowMs)
              then slots[doing.worker := Slot(w.system.db.activities[id].pricingAttempts, terms.writes)] else slots
            case AppliesPricing(claim, _) =>
              if w.system.claims[claim].id == id
              then slots[doing.worker := slots[doing.worker].(left := slots[doing.worker].left - 1)] else slots
            case _ => slots
  {
    hide TablesAfter, LiftedAfter, AnchorMs, AggregateBucket, SettledAtMs, Decided, IsVerified;
  }

  /** Only pricing writes, requeues and inserts move a row's pricing state or count. */
  lemma OtherStepsKeepCount(s: System, m: Moment, id: nat)
    requires QueueIsSound(s.db) && RowAfterStep(s, m, id).Some?
    requires !m.step.AppliesPricing? && !m.step.Requeues?
    ensures var now := RowAfterStep(s, m, id).value;
            if id in s.db.activities
            then
              && now.pricing == s.db.activities[id].pricing
              && now.pricingAttempts == s.db.activities[id].pricingAttempts
            else now.pricing.PricingPending? && now.pricingAttempts == 0
  {
    assert s.db.nextId !in s.db.activities;
  }

  lemma DecidedPutBackIsAllowed(claim: PricingClaim, write: PricingWrite, terms: Terms)
    requires Decided(claim, write, terms) && write.PutBack?
    ensures claim.attempts + 1 < terms.maxAttempts
  {
    var nowMs, outcome, numeric :|
      write == WriteOf(outcome, numeric)
      && IsOutcome(claim, outcome, RetryBudget(claim.attempts, terms.maxAttempts, terms.schedule, nowMs));
    assert outcome.Reschedule?;
  }

  /** One write by a worker that may make it. */
  lemma WriteKeepsBound(row: Activity, slots: seq<Slot>, worker: nat, write: PricingWrite, nowMs: int, terms: Terms)
    requires CountIsBounded(row, slots, terms) && SlotsOf(slots, terms.passes, terms.writes)
    requires terms.maxAttempts >= 1 && terms.passes >= 1 && terms.writes >= 1
    requires worker < terms.passes && slots[worker].left > 0
    requires write.PutBack? ==> slots[worker].reading + 1 < terms.maxAttempts
    ensures CountIsBounded(if row.pricing.PricingPending? then PricedActivity(row, write, nowMs) else row,
                           slots[worker := slots[worker].(left := slots[worker].left - 1)], terms)
  {
    hide MostPutBacks;
    if row.pricing.PricingPending? {
      WithinBudgetBounds(Attempts(row.pricingAttempts, slots), terms.passes, terms.writes, terms.maxAttempts);
      if write.PutBack? {
        StaysWithinBudget(Attempts(row.pricingAttempts, slots), PutsBack(worker), terms.passes, terms.writes,
                          terms.maxAttempts);
      }
    }
  }

  lemma ClaimKeepsBound(row: Activity, now: Activity, slots: seq<Slot>, worker: nat, terms: Terms)
    requires CountIsBounded(row, slots, terms) && SlotsOf(slots, terms.passes, terms.writes)
    requires now.pricing == row.pricing && now.pricingAttempts == row.pricingAttempts && worker < terms.passes
    ensures CountIsBounded(now, slots[worker := Slot(row.pricingAttempts, terms.writes)], terms)
  {
    hide MostPutBacks;
    if row.pricing.PricingPending? {
      StaysWithinBudget(Attempts(row.pricingAttempts, slots), Claims(worker), terms.passes, terms.writes,
                        terms.maxAttempts);
    }
  }

  lemma ZeroIsBounded(row: Activity, slots: seq<Slot>, terms: Terms)
    requires terms.maxAttempts >= 1 && terms.passes >= 1 && terms.writes >= 1
    requires SlotsOf(slots, terms.passes, terms.writes)
    requires row.pricing.PricingPending? && row.pricingAttempts == 0
    ensures CountIsBounded(row, slots, terms)
  {
    StartsWithinBudget(slots, terms.passes, terms.writes, terms.maxAttempts);
  }

  lemma StepKeepsBound(w: Watched, doing: Doing, id: nat, terms: Terms)
    requires RunIsBounded(w, terms) && QueueIsSound(w.system.db) && IsDisciplined(w, doing, terms)
    requires terms.maxAttempts >= 1 && terms.passes >= 1 && terms.writes >= 1
    requires RowAfterStep(w.system, doing.moment, id).Some?
    ensures var after := NextWatched(w, doing, terms);
            CountIsBounded(RowAfterStep(w.system, doing.moment, id).value, SlotsFor(after, id, terms.passes), terms)
  {
    hide CountIsBounded, QueueIsSound, Decided, Next, PricedActivity, RowAfterEvent, SettledBy, IsVerified, AnchorMs;
    var after := NextWatched(w, doing, terms);
    var slots, now := SlotsFor(w, id, terms.passes), RowAfterStep(w.system, doing.moment, id).value;
    SlotsMove(w, doing, id, terms);
    SlotsAreSlots(w, id, terms);
    SlotsAreSlots(after, id, terms) by {
      HoldsStaySound(w, doing, terms);
    }
    var step := doing.moment.step;
    if step.AppliesPricing? {
      var claim := w.system.claims[step.claim];
      if step.write.PutBack? {
        DecidedPutBackIsAllowed(claim, step.write, terms);
      }
      if claim.id == id {
        WriteKeepsBound(w.system.db.activities[id], slots, doing.worker, step.write, doing.moment.nowMs, terms);
      }
    } else if step.Requeues? {
      if now.pricing.PricingPending? && now.pricingAttempts == 0 {
        ZeroIsBounded(now, slots, terms);
      }
    } else {
      OtherStepsKeepCount(w.system, doing.moment, id);
      if id !in w.system.db.activities {
        ZeroIsBounded(now, SlotsFor(after, id, terms.passes), terms);
      } else {
        var row := w.system.db.activities[id];
        SameCountIsBounded(row, now, slots, terms);
        if step.ClaimsPricing? && step.id == id {
          ClaimKeepsBound(row, now, slots, doing.worker, terms);
        }
      }
    }
  }

  lemma SameCountIsBounded(row: Activity, now: Activity, slots: seq<Slot>, terms: Terms)
    requires CountIsBounded(row, slots, terms)
    requires now.pricing == row.pricing && now.pricingAttempts == row.pricingAttempts
    ensures CountIsBounded(now, slots, terms)
  {
  }

  lemma {:induction false} RunsStayBounded(doings: seq<Doing>, terms: Terms)
    requires Disciplined(doings, terms)
    requires terms.maxAttempts >= 1 && terms.passes >= 1 && terms.writes >= 1
    ensures RunIsBounded(Watch(doings, terms), terms)
  {
    hide CountIsBounded, HoldsAreSound, IsDisciplined, RowAfterStep, JobAfterStep, TablesAfter, HoldsAfter, SlotsFor,
      QueueIsSound;
    if doings != [] {
      var earlier, doing := doings[..|doings| - 1], doings[|doings| - 1];
      var w := Watch(earlier, terms);
      RunsStayBounded(earlier, terms);
      HoldsStaySound(w, doing, terms);
      WatchIsRun(earlier, terms);
      QueueStaysConsistent(MomentsOf(earlier), terms.quarantineStrikes);
      forall id | id in Watch(doings, terms).system.db.activities
        ensures CountIsBounded(Watch(doings, terms).system.db.activities[id],
                               SlotsFor(Watch(doings, terms), id, terms.passes), terms)
      {
        StepOnRow(w.system, doing.moment, terms.quarantineStrikes, id);
        StepKeepsBound(w, doing, id, terms);
      }
    } else {
      NothingHeld(terms);
    }
  }

  lemma NothingHeld(terms: Terms)
    ensures HoldsAreSound(Watch([], terms), terms.writes)
  {
  }

  /** In every run with `passes` pricing workers, each of which writes at most `writes` times with a claim, a row has
      been put back since it was inserted or last requeued at most maxAttempts - 1 times, and once more for each write
      but one that can be in flight; giving up counts one attempt more. */
  lemma PutBacksAreBounded(doings: seq<Doing>, terms: Terms, id: nat)
    requires Disciplined(doings, terms)
    requires terms.maxAttempts >= 1 && terms.passes >= 1 && terms.writes >= 1
    requires id in Run(MomentsOf(doings), terms.quarantineStrikes).db.activities
    ensures var row := Run(MomentsOf(doings), terms.quarantineStrikes).db.activities[id];
            row.pricingAttempts <= MostPutBacks(terms.passes, terms.writes, terms.maxAttempts)
                                   + if row.pricing.Unpriced? then 1 else 0
  {
    hide Disciplined, HoldsAreSound, SlotsFor, MostPutBacks;
    RunsStayBounded(doings, terms);
    WatchIsRun(doings, terms);
    var w := Watch(doings, terms);
    var row := w.system.db.activities[id];
    if row.pricing.PricingPending? {
      WithinBudgetBounds(Attempts(row.pricingAttempts, SlotsFor(w, id, terms.passes)), terms.passes, terms.writes,
                         terms.maxAttempts);
    }
  }

  // The bound is met

  /** A verified row that a pricing worker may claim at this time, whatever the workers already hold of it. */
  ghost predicate IsReady(db: Tables, id: nat, nowMs: int) {
    id in db.activities && CanClaimPricing(db, id, nowMs)
  }

  ghost function CountOf(w: Watched, id: nat, passes: nat): Attempts
    requires id in w.system.db.activities
  {
    Attempts(w.system.db.activities[id].pricingAttempts, SlotsFor(w, id, passes))
  }

  ghost predicate IsReadable(schedule: seq<string>) {
    forall attempts: nat :: Backoff.BackoffDelayMs(attempts, schedule).Ok?
  }

  lemma OneMoreDoing(doings: seq<Doing>, doing: Doing, terms: Terms)
    requires Disciplined(doings, terms) && IsDisciplined(Watch(doings, terms), doing, terms)
    ensures Disciplined(doings + [doing], terms)
    ensures Watch(doings + [doing], terms) == NextWatched(Watch(doings, terms), doing, terms)
  {
    assert (doings + [doing])[..|doings|] == doings;
  }

  lemma RetryIsDecided(claim: PricingClaim, terms: Terms)
    requires IsReadable(terms.schedule) && claim.attempts + 1 < terms.maxAttempts
    ensures Decided(claim, PutBack(Backoff.BackoffDelayMs(claim.attempts, terms.schedule).value), terms)
  {
    hide Backoff.BackoffDelayMs;
    var delayMs: int := Backoff.BackoffDelayMs(claim.attempts, terms.schedule).value;
    var budget := RetryBudget(claim.attempts, terms.maxAttempts, terms.schedule, 0);
    var numeric := (text: string) => 0.0;
    assert PricingRetryOutcome(budget, None) == Ok(PricingOutcome.Reschedule(delayMs));
    assert WriteOf(PricingOutcome.Reschedule(delayMs), numeric) == PutBack(delayMs);
    assert IsOutcome(claim, PricingOutcome.Reschedule(delayMs), budget);
  }

  lemma WorkerClaims(doings: seq<Doing>, worker: nat, id: nat, leaseMs: nat, nowMs: int, terms: Terms)
    returns (more: seq<Doing>)
    requires Disciplined(doings, terms) && worker < terms.passes && HoldsAreSound(Watch(doings, terms), terms.writes)
    requires IsReady(Watch(doings, terms).system.db, id, nowMs)
    ensures doings <= more && Disciplined(more, terms)
    ensures IsReady(Watch(more, terms).system.db, id, nowMs + leaseMs)
    ensures CountOf(Watch(more, terms), id, terms.passes)
            == AfterHappening(CountOf(Watch(doings, terms), id, terms.passes), PricingAttempts.Claims(worker),
                              terms.writes)
  {
    hide Disciplined, Watch, HoldsAreSound, HoldsAfter, SlotsFor, TablesAfter, IsVerified, AnchorMs;
    var w, doing := Watch(doings, terms), Doing(Moment(ClaimsPricing(id, leaseMs), nowMs), worker);
    OneMoreDoing(doings, doing, terms);
    SlotsMove(w, doing, id, terms);
    StepOnRow(w.system, doing.moment, terms.quarantineStrikes, id);
    AnchorStays(w.system.db.activities[id], Some(nowMs + leaseMs), 0);
    more := doings + [doing];
  }

  lemma AnchorStays(row: Activity, dueMs: Option<int>, more: nat)
    ensures var later := row.(pricingDueMs := dueMs, pricingAttempts := row.pricingAttempts + more);
            AnchorMs(later) == AnchorMs(row) && IsVerified(later) == IsVerified(row)
  {
  }

  lemma HeldClaimMayBeWritten(w: Watched, id: nat, worker: nat, writes: nat)
    requires HoldsAreSound(w, writes) && SlotAt(w, id, worker).left > 0
    ensures (worker, id) in w.holds && MayWrite(w, worker, w.holds[(worker, id)].claim)
    ensures var claim := w.system.claims[w.holds[(worker, id)].claim];
            claim.id == id && claim.attempts == SlotAt(w, id, worker).reading
  {
  }

  lemma WorkerPutsBack(doings: seq<Doing>, worker: nat, id: nat, nowMs: int, terms: Terms)
    returns (more: seq<Doing>, laterMs: int)
    requires Disciplined(doings, terms) && worker < terms.passes && HoldsAreSound(Watch(doings, terms), terms.writes)
    requires IsReady(Watch(doings, terms).system.db, id, nowMs) && IsReadable(terms.schedule)
    requires Allows(SlotAt(Watch(doings, terms), id, worker), terms.maxAttempts)
    ensures doings <= more && Disciplined(more, terms) && nowMs <= laterMs
    ensures IsReady(Watch(more, terms).system.db, id, laterMs)
    ensures CountOf(Watch(more, terms), id, terms.passes)
            == AfterHappening(CountOf(Watch(doings, terms), id, terms.passes), PutsBack(worker), terms.writes)
  {
    hide Disciplined, Watch, HoldsAfter, HoldsAreSound, MayWrite, TablesAfter, IsVerified, AnchorMs, Decided,
      Backoff.BackoffDelayMs;
    var w := Watch(doings, terms);
    HeldClaimMayBeWritten(w, id, worker, terms.writes);
    var claim := w.holds[(worker, id)].claim;
    RetryIsDecided(w.system.claims[claim], terms);
    var delayMs := Backoff.BackoffDelayMs(w.system.claims[claim].attempts, terms.schedule).value;
    var doing := Doing(Moment(AppliesPricing(claim, PutBack(delayMs)), nowMs), worker);
    OneMoreDoing(doings, doing, terms);
    SlotsMove(w, doing, id, terms);
    StepOnRow(w.system, doing.moment, terms.quarantineStrikes, id);
    AnchorStays(w.system.db.activities[id], Some(nowMs + delayMs), 1);
    more, laterMs := doings + [doing], nowMs + delayMs;
  }

  /** Whatever can happen to one row's slots does happen in a run, on a clock that goes forward. */
  lemma {:induction false} RunGoesOn(doings: seq<Doing>, id: nat, happenings: seq<Happening>, leaseMs: nat, nowMs: int,
                                     terms: Terms)
    returns (more: seq<Doing>)
    requires Disciplined(doings, terms) && IsReadable(terms.schedule)
    requires terms.maxAttempts >= 1 && terms.passes >= 1 && terms.writes >= 1
    requires IsReady(Watch(doings, terms).system.db, id, nowMs)
    requires Happens(CountOf(Watch(doings, terms), id, terms.passes), happenings, terms.writes, terms.maxAttempts)
    ensures doings <= more && Disciplined(more, terms)
    ensures var after := Watch(more, terms).system.db;
            && id in after.activities && after.activities[id].pricing.PricingPending?
            && after.activities[id].pricingAttempts
               == Watch(doings, terms).system.db.activities[id].pricingAttempts + TimesPutBack(happenings)
    decreases |happenings|
  {
    hide Disciplined, Watch, HoldsAreSound, CountIsBounded;
    if happenings == [] {
      more := doings;
    } else {
      RunsStayBounded(doings, terms);
      var next, laterMs := doings, nowMs;
      if happenings[0].Claims? {
        next := WorkerClaims(doings, happenings[0].worker, id, leaseMs, nowMs, terms);
        laterMs := nowMs + leaseMs;
      } else {
        next, laterMs := WorkerPutsBack(doings, happenings[0].worker, id, nowMs, terms);
      }
      more := RunGoesOn(next, id, happenings[1..], leaseMs, laterMs, terms);
    }
  }

  /** For every number of workers and of writes, every lease, schedule and budget, a run in
      which a verified row has no attempts yet can go on to put it back as often as the bound admits. */
  lemma BoundIsMet(doings: seq<Doing>, terms: Terms, id: nat, leaseMs: nat, nowMs: int)
    requires Disciplined(doings, terms) && IsReadable(terms.schedule)
    requires terms.maxAttempts >= 1 && terms.passes >= 1 && terms.writes >= 1
    requires var db := Run(MomentsOf(doings), terms.quarantineStrikes).db;
             IsReady(db, id, nowMs) && db.activities[id].pricingAttempts == 0
    ensures exists more ::
              && doings <= more && Disciplined(more, terms)
              && var db := Run(MomentsOf(more), terms.quarantineStrikes).db;
                 && id in db.activities && db.activities[id].pricing.PricingPending?
                 && db.activities[id].pricingAttempts == MostPutBacks(terms.passes, terms.writes, terms.maxAttempts)
  {
    hide Disciplined, Watch, Run, Happens, MostPutBacks;
    WatchIsRun(doings, terms);
    var row := CountOf(Watch(doings, terms), id, terms.passes);
    PutBackBoundIsMet(row.slots, terms.writes, terms.maxAttempts);
    var happenings :| && Happens(row, happenings, terms.writes, terms.maxAttempts)
                      && TimesPutBack(happenings) == MostPutBacks(|row.slots|, terms.writes, terms.maxAttempts);
    var more := RunGoesOn(doings, id, happenings, leaseMs, nowMs, terms);
    WatchIsRun(more, terms);
  }

  lemma IngestsTheFirst(s: System, event: IngestEvent, quarantineStrikes: int)
    requires s == Next(START, Moment(Registers("agent", "token"), 0), quarantineStrikes)
    ensures var after := Next(s, Moment(Ingests("agent", event), 0), quarantineStrikes);
            0 in after.db.activities && after.db.activities[0] == InsertedActivity("agent", event)
  {
    assert s.db == Register(EMPTY, "agent", "token");
    assert "agent" in s.db.agents && ExistingRow(s.db, "agent", event.sourceRow).None?;
  }

  lemma VerifiesTheFirst(s: System, quarantineStrikes: int)
    requires 0 in s.db.activities && s.db.activities[0].verification.Queued?
    requires s.db.activities[0].pricing.PricingPending?
    requires s.db.activities[0].pricingDueMs.None?
    ensures var m := Moment(AppliesJobOutcome(0, VerifyJob.Finalize(Receipt.VerifiedFull(0))), 0);
            var after := Next(s, m, quarantineStrikes);
            IsReady(after.db, 0, 0) && after.db.activities[0].pricingAttempts == s.db.activities[0].pricingAttempts
  {
    hide TablesAfter;
    StepOnRow(s, Moment(AppliesJobOutcome(0, VerifyJob.Finalize(Receipt.VerifiedFull(0))), 0), quarantineStrikes, 0);
  }

  /** A run that verifies one activity. */
  lemma SomeRowIsReady(terms: Terms) returns (doings: seq<Doing>)
    ensures Disciplined(doings, terms)
    ensures var db := Run(MomentsOf(doings), terms.quarantineStrikes).db;
            IsReady(db, 0, 0) && db.activities[0].pricingAttempts == 0
  {
    hide TablesAfter, IsReady;
    var event := IngestEvent("row", VerifyJob.Swap, "swap", Confirmed, "relay", Chains.Eip155, 1, None, Some("0x1"),
                             None);
    var registers := Doing(Moment(Registers("agent", "token"), 0), 0);
    var ingests := Doing(Moment(Ingests("agent", event), 0), 0);
    var verifies := Doing(Moment(AppliesJobOutcome(0, VerifyJob.Finalize(Receipt.VerifiedFull(0))), 0), 0);
    OneMoreDoing([], registers, terms);
    OneMoreDoing([registers], ingests, terms);
    OneMoreDoing([registers] + [ingests], verifies, terms);
    IngestsTheFirst(Watch([registers], terms).system, event, terms.quarantineStrikes);
    VerifiesTheFirst(Watch([registers] + [ingests], terms).system, terms.quarantineStrikes);
    doings := [registers] + [ingests] + [verifies];
    WatchIsRun(doings, terms);
  }

  /** No disciplined run puts a live row back more than maxAttempts - 1 times. */
  ghost predicate OneBudgetBoundsRuns(terms: Terms) {
    forall doings, id |
      Disciplined(doings, terms) && id in Run(MomentsOf(doings), terms.quarantineStrikes).db.activities
      && Run(MomentsOf(doings), terms.quarantineStrikes).db.activities[id].pricing.PricingPending? ::
      Run(MomentsOf(doings), terms.quarantineStrikes).db.activities[id].pricingAttempts <= terms.maxAttempts - 1
  }

  /** A pending row is put back at most maxAttempts - 1 times in every run exactly when there is one pricing worker that
      never writes twice with a claim, or no retry at all. */
  lemma OneBudgetBoundsRunsExactlyWhen(terms: Terms)
    requires terms.maxAttempts >= 1 && terms.passes >= 1 && terms.writes >= 1 && IsReadable(terms.schedule)
    ensures OneBudgetBoundsRuns(terms) <==> terms.passes == terms.writes == 1 || terms.maxAttempts == 1
  {
    hide Disciplined, Run, MomentsOf;
    if terms.passes == terms.writes == 1 || terms.maxAttempts == 1 {
      forall doings, id |
        Disciplined(doings, terms) && id in Run(MomentsOf(doings), terms.quarantineStrikes).db.activities
        && Run(MomentsOf(doings), terms.quarantineStrikes).db.activities[id].pricing.PricingPending?
        ensures Run(MomentsOf(doings), terms.quarantineStrikes).db.activities[id].pricingAttempts
                <= terms.maxAttempts - 1
      {
        PutBacksAreBounded(doings, terms, id);
      }
    } else {
      var doings := SomeRowIsReady(terms);
      BoundIsMet(doings, terms, 0, 0, 0);
      ProductIsTwo(terms.passes, terms.writes);
    }
  }
}
