/** How often one activity can be put back between two requeues (apps/server/src/worker/pricing-loop.ts). */
module PricingAttempts {

  /** A worker's claim on the row: the attempts it read, and how many writes it may still make. A pass writes the
      outcome it decided, and once more when that write committed but its reply was lost. */
  datatype Slot = Slot(reading: nat, left: nat)

  /** The row's attempts, and each worker's slot. */
  datatype Attempts = Attempts(attempts: nat, slots: seq<Slot>)

  datatype Happening = Claims(worker: nat) | PutsBack(worker: nat)

  function AfterHappening(row: Attempts, happening: Happening, writes: nat): Attempts
    requires happening.worker < |row.slots|
    requires happening.PutsBack? ==> row.slots[happening.worker].left > 0
  {
    var k := happening.worker;
    match happening
    case Claims(_) => row.(slots := row.slots[k := Slot(row.attempts, writes)])
    case PutsBack(_) => Attempts(row.attempts + 1, row.slots[k := row.slots[k].(left := row.slots[k].left - 1)])
  }

  predicate Allows(slot: Slot, maxAttempts: int) {
    slot.left > 0 && slot.reading + 1 < maxAttempts
  }

  /** A row is only put back by a worker whose own reading allows it. */
  predicate CanHappen(row: Attempts, happening: Happening, maxAttempts: int) {
    && happening.worker < |row.slots|
    && (happening.PutsBack? ==> Allows(row.slots[happening.worker], maxAttempts))
  }

  ghost predicate Happens(row: Attempts, happenings: seq<Happening>, writes: nat, maxAttempts: int)
    decreases |happenings|
  {
    happenings == [] ||
    (CanHappen(row, happenings[0], maxAttempts)
     && Happens(AfterHappening(row, happenings[0], writes), happenings[1..], writes, maxAttempts))
  }

  ghost function TimesPutBack(happenings: seq<Happening>): nat {
    if happenings == [] then 0 else (if happenings[0].PutsBack? then 1 else 0) + TimesPutBack(happenings[1..])
  }

  ghost function OpenIn(slot: Slot, maxAttempts: int): nat {
    if slot.reading + 1 < maxAttempts then slot.left else 0
  }

  /** The writes still to come that would put the row back. */
  ghost function Open(slots: seq<Slot>, maxAttempts: int): nat {
    if slots == [] then 0 else Open(slots[..|slots| - 1], maxAttempts) + OpenIn(slots[|slots| - 1], maxAttempts)
  }

  /** The slots of `passes` workers that write at most `writes` times a claim. */
  ghost predicate SlotsOf(slots: seq<Slot>, passes: nat, writes: nat) {
    |slots| == passes && forall k | 0 <= k < passes :: slots[k].left <= writes
  }

  lemma {:induction false} OpenBound(slots: seq<Slot>, writes: nat, maxAttempts: int)
    requires SlotsOf(slots, |slots|, writes)
    ensures Open(slots, maxAttempts) <= |slots| * writes
    ensures maxAttempts <= 1 ==> Open(slots, maxAttempts) == 0
  {
    if slots != [] {
      OpenBound(slots[..|slots| - 1], writes, maxAttempts);
      assert |slots| * writes == (|slots| - 1) * writes + writes;
    }
  }

  lemma {:induction false} OpenAfterUpdate(slots: seq<Slot>, k: nat, slot: Slot, maxAttempts: int)
    requires k < |slots|
    ensures Open(slots[k := slot], maxAttempts) + OpenIn(slots[k], maxAttempts)
            == Open(slots, maxAttempts) + OpenIn(slot, maxAttempts)
  {
    var n := |slots| - 1;
    if k == n {
      assert slots[k := slot][..n] == slots[..n];
    } else {
      OpenAfterUpdate(slots[..n], k, slot, maxAttempts);
      assert slots[k := slot][..n] == slots[..n][k := slot];
    }
  }

  /** The most a row can be put back: the schedule's own retries, and what the other writes in flight add. */
  function MostPutBacks(passes: nat, writes: nat, maxAttempts: int): int {
    if maxAttempts <= 1 then 0 else maxAttempts - 1 + passes * writes - 1
  }

  /** Once the budget is used up, only the writes still to come can add to it. */
  ghost predicate WithinBudget(row: Attempts, passes: nat, writes: nat, maxAttempts: int) {
    && SlotsOf(row.slots, passes, writes)
    && (row.attempts + 1 >= maxAttempts ==>
          row.attempts + Open(row.slots, maxAttempts) <= MostPutBacks(passes, writes, maxAttempts))
  }

  lemma StaysWithinBudget(row: Attempts, happening: Happening, passes: nat, writes: nat, maxAttempts: int)
    requires WithinBudget(row, passes, writes, maxAttempts) && CanHappen(row, happening, maxAttempts)
    ensures WithinBudget(AfterHappening(row, happening, writes), passes, writes, maxAttempts)
  {
    var k := happening.worker;
    OpenBound(row.slots, writes, maxAttempts);
    OpenAfterUpdate(row.slots, k, AfterHappening(row, happening, writes).slots[k], maxAttempts);
  }

  /** With an attempt count of zero any slots are within the budget. */
  lemma StartsWithinBudget(slots: seq<Slot>, passes: nat, writes: nat, maxAttempts: int)
    requires maxAttempts >= 1 && passes >= 1 && writes >= 1 && SlotsOf(slots, passes, writes)
    ensures WithinBudget(Attempts(0, slots), passes, writes, maxAttempts)
  {
    OpenBound(slots, writes, maxAttempts);
    assert passes * writes >= 1 by {
      assert (passes - 1) * writes >= 0;
    }
  }

  lemma WithinBudgetBounds(row: Attempts, passes: nat, writes: nat, maxAttempts: int)
    requires WithinBudget(row, passes, writes, maxAttempts)
    requires maxAttempts >= 1 && passes >= 1 && writes >= 1
    ensures row.attempts <= MostPutBacks(passes, writes, maxAttempts)
  {
    assert passes * writes >= 1 by {
      assert (passes - 1) * writes >= 0;
    }
  }

  lemma {:induction false} AttemptsCountPutBacks(row: Attempts, happenings: seq<Happening>, passes: nat, writes: nat,
                                                 maxAttempts: int)
    requires WithinBudget(row, passes, writes, maxAttempts) && Happens(row, happenings, writes, maxAttempts)
    requires maxAttempts >= 1 && passes >= 1 && writes >= 1
    ensures row.attempts + TimesPutBack(happenings) <= MostPutBacks(passes, writes, maxAttempts)
    decreases |happenings|
  {
    hide WithinBudget;
    WithinBudgetBounds(row, passes, writes, maxAttempts);
    if happenings != [] {
      StaysWithinBudget(row, happenings[0], passes, writes, maxAttempts);
      AttemptsCountPutBacks(AfterHappening(row, happenings[0], writes), happenings[1..], passes, writes, maxAttempts);
    }
  }

  /** After a requeue, whatever the workers still hold, a row is put back at most maxAttempts - 1 times and once more
      for each write but one that the workers can have in flight together; not at all when no retry is allowed. */
  lemma PutBackBound(slots: seq<Slot>, happenings: seq<Happening>, writes: nat, maxAttempts: int)
    requires maxAttempts >= 1 && |slots| >= 1 && writes >= 1
    requires SlotsOf(slots, |slots|, writes)
    requires Happens(Attempts(0, slots), happenings, writes, maxAttempts)
    ensures TimesPutBack(happenings) <= MostPutBacks(|slots|, writes, maxAttempts)
  {
    StartsWithinBudget(slots, |slots|, writes, maxAttempts);
    AttemptsCountPutBacks(Attempts(0, slots), happenings, |slots|, writes, maxAttempts);
  }

  // The bound is met

  lemma HappensFirst(row: Attempts, first: Happening, rest: seq<Happening>, writes: nat, maxAttempts: int)
    requires CanHappen(row, first, maxAttempts)
    requires Happens(AfterHappening(row, first, writes), rest, writes, maxAttempts)
    ensures Happens(row, [first] + rest, writes, maxAttempts)
    ensures TimesPutBack([first] + rest) == TimesPutBack(rest) + if first.PutsBack? then 1 else 0
  {
    assert ([first] + rest)[1..] == rest;
  }

  lemma {:induction false} SomeSlotAllows(slots: seq<Slot>, maxAttempts: int) returns (k: nat)
    requires Open(slots, maxAttempts) > 0
    ensures k < |slots| && Allows(slots[k], maxAttempts)
  {
    var n := |slots| - 1;
    if Allows(slots[n], maxAttempts) {
      k := n;
    } else {
      k := SomeSlotAllows(slots[..n], maxAttempts);
    }
  }

  /** Every write in flight puts the row back. */
  lemma {:induction false} AllWrite(row: Attempts, writes: nat, maxAttempts: int) returns (happenings: seq<Happening>)
    ensures Happens(row, happenings, writes, maxAttempts)
    ensures TimesPutBack(happenings) == Open(row.slots, maxAttempts)
    decreases Open(row.slots, maxAttempts)
  {
    if Open(row.slots, maxAttempts) == 0 {
      happenings := [];
    } else {
      var k := SomeSlotAllows(row.slots, maxAttempts);
      var next := AfterHappening(row, PutsBack(k), writes);
      OpenAfterUpdate(row.slots, k, next.slots[k], maxAttempts);
      var rest := AllWrite(next, writes, maxAttempts);
      HappensFirst(row, PutsBack(k), rest, writes, maxAttempts);
      happenings := [PutsBack(k)] + rest;
    }
  }

  lemma {:induction false} FullSlotsAreOpen(slots: seq<Slot>, slot: Slot, maxAttempts: int)
    requires forall k | 0 <= k < |slots| :: slots[k] == slot
    requires slot.reading + 1 < maxAttempts
    ensures Open(slots, maxAttempts) == |slots| * slot.left
  {
    if slots != [] {
      FullSlotsAreOpen(slots[..|slots| - 1], slot, maxAttempts);
      assert |slots| * slot.left == (|slots| - 1) * slot.left + slot.left;
    }
  }

  /** The workers from the `claimed`-th on claim, and then all write. */
  lemma {:induction false} AllClaimAndWrite(row: Attempts, claimed: nat, writes: nat, maxAttempts: int)
    returns (happenings: seq<Happening>)
    requires claimed <= |row.slots| && row.attempts + 1 < maxAttempts
    requires forall k | 0 <= k < claimed :: row.slots[k] == Slot(row.attempts, writes)
    ensures Happens(row, happenings, writes, maxAttempts)
    ensures TimesPutBack(happenings) == |row.slots| * writes
    decreases |row.slots| - claimed
  {
    if claimed == |row.slots| {
      FullSlotsAreOpen(row.slots, Slot(row.attempts, writes), maxAttempts);
      happenings := AllWrite(row, writes, maxAttempts);
    } else {
      var next := AfterHappening(row, Claims(claimed), writes);
      var rest := AllClaimAndWrite(next, claimed + 1, writes, maxAttempts);
      HappensFirst(row, Claims(claimed), rest, writes, maxAttempts);
      happenings := [Claims(claimed)] + rest;
    }
  }

  /** One worker retries until one retry is left, and then all claim at once. */
  lemma {:induction false} Exhausting(row: Attempts, writes: nat, maxAttempts: int) returns (happenings: seq<Happening>)
    requires |row.slots| >= 1 && writes >= 1 && row.attempts + 1 < maxAttempts
    ensures Happens(row, happenings, writes, maxAttempts)
    ensures row.attempts + TimesPutBack(happenings) == MostPutBacks(|row.slots|, writes, maxAttempts)
    decreases maxAttempts - row.attempts
  {
    hide Happens, TimesPutBack;
    if row.attempts + 2 == maxAttempts {
      happenings := AllClaimAndWrite(row, 0, writes, maxAttempts);
    } else {
      var claimed := AfterHappening(row, Claims(0), writes);
      var next := AfterHappening(claimed, PutsBack(0), writes);
      var rest := Exhausting(next, writes, maxAttempts);
      HappensFirst(claimed, PutsBack(0), rest, writes, maxAttempts);
      HappensFirst(row, Claims(0), [PutsBack(0)] + rest, writes, maxAttempts);
      happenings := [Claims(0)] + ([PutsBack(0)] + rest);
    }
  }

  /** For every budget and every number of workers and of writes the bound is met. */
  lemma PutBackBoundIsMet(slots: seq<Slot>, writes: nat, maxAttempts: int)
    requires maxAttempts >= 1 && |slots| >= 1 && writes >= 1
    ensures exists happenings ::
              && Happens(Attempts(0, slots), happenings, writes, maxAttempts)
              && TimesPutBack(happenings) == MostPutBacks(|slots|, writes, maxAttempts)
  {
    if maxAttempts == 1 {
      assert Happens(Attempts(0, slots), [], writes, maxAttempts) && TimesPutBack([]) == 0;
    } else {
      var happenings := Exhausting(Attempts(0, slots), writes, maxAttempts);
    }
  }

  ghost predicate OneBudgetHolds(passes: nat, writes: nat, maxAttempts: int) {
    forall slots, happenings |
      SlotsOf(slots, passes, writes) && Happens(Attempts(0, slots), happenings, writes, maxAttempts) ::
      TimesPutBack(happenings) <= maxAttempts - 1
  }

  lemma OneWriteFitsOneBudget(passes: nat, writes: nat, maxAttempts: int)
    requires maxAttempts >= 1 && (passes == writes == 1 || (maxAttempts == 1 && passes >= 1 && writes >= 1))
    ensures OneBudgetHolds(passes, writes, maxAttempts)
  {
    hide Happens, TimesPutBack;
    forall slots, happenings |
      SlotsOf(slots, passes, writes) && Happens(Attempts(0, slots), happenings, writes, maxAttempts)
      ensures TimesPutBack(happenings) <= maxAttempts - 1
    {
      PutBackBound(slots, happenings, writes, maxAttempts);
    }
  }

  lemma ProductIsTwo(m: nat, n: nat)
    requires m >= 1 && n >= 1 && (m >= 2 || n >= 2)
    ensures m * n >= 2
  {
    assert (m - 1) * (n - 1) >= 0;
  }

  lemma TwoWritesExceedOneBudget(passes: nat, writes: nat, maxAttempts: int)
    requires maxAttempts >= 2 && passes >= 1 && writes >= 1 && (passes >= 2 || writes >= 2)
    ensures !OneBudgetHolds(passes, writes, maxAttempts)
  {
    hide Happens, TimesPutBack;
    var slots := seq(passes, _ => Slot(0, 0));
    PutBackBoundIsMet(slots, writes, maxAttempts);
    ProductIsTwo(passes, writes);
    assert SlotsOf(slots, passes, writes);
  }

  /** So maxAttempts - 1 bounds every run exactly when there is one worker that never writes twice, or no retry. */
  lemma OneBudgetExactlyWhen(passes: nat, writes: nat, maxAttempts: int)
    requires maxAttempts >= 1 && passes >= 1 && writes >= 1
    ensures OneBudgetHolds(passes, writes, maxAttempts) <==> passes == writes == 1 || maxAttempts == 1
  {
    hide OneBudgetHolds;
    if passes == writes == 1 || maxAttempts == 1 {
      OneWriteFitsOneBudget(passes, writes, maxAttempts);
    } else {
      TwoWritesExceedOneBudget(passes, writes, maxAttempts);
    }
  }
}
