/** The retry schedule of the verification and pricing queues (packages/core/src/backoff.ts). */
module Backoff {
  import opened Wrappers
  import opened DigitText

  const SECOND_MS := 1000
  const MINUTE_MS := 60_000
  const HOUR_MS := 3_600_000
  const DAY_MS := 86_400_000

  datatype Failure = InvalidInterval(interval: string) | EmptySchedule

  function UnitMs(unit: char): Option<nat> {
    match unit
    case 's' => Some(SECOND_MS)
    case 'm' => Some(MINUTE_MS)
    case 'h' => Some(HOUR_MS)
    case _ => None
  }

  /** An interval is digits followed by one unit letter. */
  function IntervalToMs(interval: string): Result<nat, Failure> {
    if |interval| < 2 || !AllDigits(interval[..|interval| - 1]) || UnitMs(interval[|interval| - 1]).None?
    then Err(InvalidInterval(interval))
    else Ok(ValueOf(interval[..|interval| - 1]) * UnitMs(interval[|interval| - 1]).value)
  }

  /** The schedule's entry for this attempt; its last entry serves every later attempt. */
  function BackoffDelayMs(attempts: nat, schedule: seq<string>): Result<nat, Failure> {
    if |schedule| == 0 then Err(EmptySchedule)
    else IntervalToMs(schedule[if attempts < |schedule| then attempts else |schedule| - 1])
  }

  /** A number and its unit, in milliseconds. */
  lemma IntervalIsCountOfUnits(count: nat)
    ensures IntervalToMs(TextOf(count) + "s") == Ok(count * 1_000)
    ensures IntervalToMs(TextOf(count) + "m") == Ok(count * 60_000)
    ensures IntervalToMs(TextOf(count) + "h") == Ok(count * 3_600_000)
  {
    hide ValueOf, TextOf;
    var text := TextOf(count);
    TextOfValue(count);
    assert (text + "s")[..|text + "s"| - 1] == text;
    assert (text + "m")[..|text + "m"| - 1] == text;
    assert (text + "h")[..|text + "h"| - 1] == text;
  }

  /** Nothing else is an interval: digits, and one of the three units. */
  lemma OtherIntervalsAreRefused(interval: string)
    ensures IntervalToMs(interval).Ok? <==>
              && |interval| >= 2 && interval[|interval| - 1] in "smh"
              && forall i | 0 <= i < |interval| - 1 :: '0' <= interval[i] <= '9'
    ensures IntervalToMs(interval).Err? ==> IntervalToMs(interval).error == InvalidInterval(interval)
  {
  }

  /** Attempt by attempt the schedule is read in its order, and its last entry for good. */
  lemma ScheduleIsReadInOrder(attempts: nat, schedule: seq<string>)
    ensures attempts < |schedule| ==> BackoffDelayMs(attempts, schedule) == IntervalToMs(schedule[attempts])
    ensures 1 <= |schedule| <= attempts ==>
              BackoffDelayMs(attempts, schedule) == IntervalToMs(schedule[|schedule| - 1])
    ensures schedule == [] ==> BackoffDelayMs(attempts, schedule) == Err(EmptySchedule)
  {
  }

  datatype Step = Delay(delayMs: nat) | GiveUp

  predicate Expired(firstAttemptMs: int, maxAgeDays: int, nowMs: int) {
    nowMs - firstAttemptMs > maxAgeDays * DAY_MS
  }

  function NextBackoff(attempts: nat, schedule: seq<string>, firstAttemptMs: int, maxAgeDays: int,
                       nowMs: int): Result<Step, Failure> {
    if Expired(firstAttemptMs, maxAgeDays, nowMs) then Ok(GiveUp)
    else
      var delayMs :- BackoffDelayMs(attempts, schedule);
      Ok(Delay(delayMs))
  }

  ghost predicate PositiveInterval(interval: string) {
    IntervalToMs(interval).Ok? && IntervalToMs(interval).value > 0
  }

  /** A schedule an operator would write: at least one interval, each of them readable and not zero. */
  ghost predicate PositiveSchedule(schedule: seq<string>) {
    |schedule| > 0 && forall i | 0 <= i < |schedule| :: PositiveInterval(schedule[i])
  }

  lemma PositiveIntervalIsASecond(interval: string)
    requires PositiveInterval(interval)
    ensures IntervalToMs(interval).value >= SECOND_MS
  {
    var count, unit := ValueOf(interval[..|interval| - 1]), UnitMs(interval[|interval| - 1]).value;
    assert count != 0;
    assert count >= 1 && unit >= SECOND_MS;
    assert (count - 1) * unit >= 0;
  }

  /** A usable schedule always answers, with a second at least, until the age is reached; past the age the
      schedule is not even read. */
  lemma BackoffAlwaysAnswers(attempts: nat, schedule: seq<string>, firstAttemptMs: int, maxAgeDays: int, nowMs: int)
    ensures NextBackoff(attempts, schedule, firstAttemptMs, maxAgeDays, nowMs) == Ok(GiveUp)
            <==> nowMs - firstAttemptMs > maxAgeDays * 86_400_000
    ensures PositiveSchedule(schedule) && !Expired(firstAttemptMs, maxAgeDays, nowMs) ==>
              && NextBackoff(attempts, schedule, firstAttemptMs, maxAgeDays, nowMs).Ok?
              && NextBackoff(attempts, schedule, firstAttemptMs, maxAgeDays, nowMs).value.Delay?
              && NextBackoff(attempts, schedule, firstAttemptMs, maxAgeDays, nowMs).value.delayMs >= SECOND_MS
  {
    if PositiveSchedule(schedule) {
      PositiveIntervalIsASecond(schedule[if attempts < |schedule| then attempts else |schedule| - 1]);
    }
  }
}
