/** One table of hits, shared by limiters of different limits and windows, under calls and sweeps in any order. */
module RateLimitRuns {
  import opened Wrappers
  import opened Ordering
  import opened RateLimit
  import Paging

  /** A call's transaction starts, waits for its lock and then reads the clock; a sweep reads it when it starts. */
  datatype Event = Call(key: string, startedMs: int, nowMs: int) | Sweep(nowMs: int)

  /** The limit and window of the limiter a key belongs to, and the window of the sweep. */
  datatype Limits = Limits(limitOf: string -> int, windowOf: string -> int, longestSec: int)

  /** The call of one key against one row. */
  function Decides(hits: seq<int>, nowMs: int, key: string, limits: Limits): (Decision, seq<int>) {
    DecideSlidingWindow(hits, nowMs, limits.limitOf(key), limits.windowOf(key))
  }

  /** The window over one key's calls alone. */
  function WindowOf(times: seq<int>, key: string, limits: Limits): Window {
    After(times, limits.limitOf(key), limits.windowOf(key))
  }

  function RowsAfter(events: seq<Event>, limits: Limits): map<string, Row> {
    if events == [] then map[]
    else
      var rows := RowsAfter(events[..|events| - 1], limits);
      match events[|events| - 1]
      case Call(key, startedMs, nowMs) =>
        AfterCall(rows, key, startedMs, nowMs, limits.limitOf(key), limits.windowOf(key))
      case Sweep(nowMs) => AfterSweep(rows, nowMs, limits.longestSec)
  }

  /** The times of one key's calls. */
  function CallTimes(events: seq<Event>, key: string): seq<int> {
    if events == [] then []
    else
      var times, last := CallTimes(events[..|events| - 1], key), events[|events| - 1];
      if last.Call? && last.key == key then times + [last.nowMs] else times
  }

  /** The hits of one key that the calls of the run did admit. */
  function Admitted(events: seq<Event>, key: string, limits: Limits): seq<int> {
    if events == [] then []
    else
      var front, last := events[..|events| - 1], events[|events| - 1];
      var hits := HitsOf(RowsAfter(front, limits), key);
      if last.Call? && last.key == key && Decides(hits, last.nowMs, key, limits).0.Allowed?
      then Admitted(front, key, limits) + [last.nowMs] else Admitted(front, key, limits)
  }

  /** No call reads a clock behind that of an earlier call or sweep, and none is ahead of `t`. */
  ghost predicate ForwardTo(events: seq<Event>, t: int) {
    && (forall event | event in events :: event.nowMs <= t)
    && (forall i, j | 0 <= i < j < |events| && events[j].Call? :: events[i].nowMs <= events[j].nowMs)
  }

  /** No call of the key reads its clock later than this after its transaction began. */
  ghost predicate WaitsWithin(events: seq<Event>, key: string, waitMs: int) {
    forall event | event in events && event.Call? && event.key == key :: event.nowMs <= event.startedMs + waitMs
  }

  /** The wait is short enough for the sweep, or the limiter never has a live hit or never admits one. */
  predicate IsHarmless(key: string, waitMs: int, limits: Limits) {
    || waitMs <= (limits.longestSec - limits.windowOf(key)) * 1000 + 1
    || limits.limitOf(key) <= 0 || limits.windowOf(key) <= 0
  }

  /** A key's row holds what its calls alone would have left, or was swept when none of that was live any more. */
  ghost predicate RowIsCurrent(rows: map<string, Row>, key: string, times: seq<int>, t: int, waitMs: int,
                               limits: Limits)
  {
    var hits := WindowOf(times, key, limits).hitsMs;
    && |hits| <= Max(limits.limitOf(key), 0) && (forall hit | hit in hits :: hit <= t)
    && if key in rows
       then rows[key].hitsMs == hits && forall hit | hit in hits :: hit <= rows[key].updatedAtMs + waitMs
       else forall hit | hit in hits :: hit <= t - limits.windowOf(key) * 1000
  }

  lemma SplitForward(events: seq<Event>, t: int)
    requires events != [] && ForwardTo(events, t)
    ensures var front, last := events[..|events| - 1], events[|events| - 1];
            last.nowMs <= t && ForwardTo(front, t) && (last.Call? ==> ForwardTo(front, last.nowMs))
  {
    var front := events[..|events| - 1];
    assert forall event | event in front :: event in events;
    forall event | event in front && events[|events| - 1].Call?
      ensures event.nowMs <= events[|events| - 1].nowMs
    {
      var i :| 0 <= i < |front| && front[i] == event;
      assert events[i] == event;
    }
  }

  lemma {:induction false} CallTimesGoForward(events: seq<Event>, key: string, t: int)
    requires ForwardTo(events, t)
    ensures ClockUpTo(CallTimes(events, key), t)
  {
    if events != [] {
      SplitForward(events, t);
      var front, last := events[..|events| - 1], events[|events| - 1];
      if last.Call? && last.key == key {
        CallTimesGoForward(front, key, last.nowMs);
      } else {
        CallTimesGoForward(front, key, t);
      }
    }
  }

  /** Whatever of a row was lost to a sweep makes no difference to a call. */
  lemma CurrentRowDecides(rows: map<string, Row>, key: string, times: seq<int>, t: int, waitMs: int, limits: Limits)
    requires RowIsCurrent(rows, key, times, t, waitMs, limits)
    ensures Decides(HitsOf(rows, key), t, key, limits) == Decides(WindowOf(times, key, limits).hitsMs, t, key, limits)
  {
    if key !in rows {
      var hits := WindowOf(times, key, limits).hitsMs;
      var empty: seq<int> := [];
      Paging.FilterNone((hitMs: int) => hitMs > t - limits.windowOf(key) * 1000, hits);
      assert Live(hits, t, limits.windowOf(key)) == [] == Live(empty, t, limits.windowOf(key));
    }
  }

  lemma CallKeepsRow(rows: map<string, Row>, call: Event, key: string, times: seq<int>, t: int, waitMs: int,
                     limits: Limits)
    requires call.Call? && call.nowMs <= t && ClockUpTo(times, call.nowMs)
    requires RowIsCurrent(rows, key, times, call.nowMs, waitMs, limits)
    requires call.key == key ==> call.nowMs <= call.startedMs + waitMs
    ensures var after := AfterCall(rows, call.key, call.startedMs, call.nowMs, limits.limitOf(call.key),
                                   limits.windowOf(call.key));
            RowIsCurrent(after, key, if call.key == key then times + [call.nowMs] else times, t, waitMs, limits)
  {
    hide Live;
    if call.key == key {
      CurrentRowDecides(rows, key, times, call.nowMs, waitMs, limits);
      assert (times + [call.nowMs])[..|times|] == times;
      RowIsSmallAndOrdered(times + [call.nowMs], call.nowMs, limits.limitOf(key), limits.windowOf(key));
    }
  }

  lemma SweepKeepsRow(rows: map<string, Row>, sweep: Event, key: string, times: seq<int>, t: int, waitMs: int,
                      limits: Limits)
    requires sweep.Sweep? && sweep.nowMs <= t && RowIsCurrent(rows, key, times, t, waitMs, limits)
    requires IsHarmless(key, waitMs, limits)
    ensures RowIsCurrent(AfterSweep(rows, sweep.nowMs, limits.longestSec), key, times, t, waitMs, limits)
  {
    var hits := WindowOf(times, key, limits).hitsMs;
    assert limits.limitOf(key) <= 0 ==> hits == [];
  }

  lemma {:induction false} RowsStayCurrent(events: seq<Event>, key: string, t: int, waitMs: int, limits: Limits)
    requires ForwardTo(events, t) && WaitsWithin(events, key, waitMs) && IsHarmless(key, waitMs, limits)
    ensures RowIsCurrent(RowsAfter(events, limits), key, CallTimes(events, key), t, waitMs, limits)
  {
    hide RowIsCurrent, ForwardTo;
    if events == [] {
      NothingIsCurrent(key, t, waitMs, limits);
    } else {
      SplitForward(events, t);
      var front, last := events[..|events| - 1], events[|events| - 1];
      assert forall event | event in front :: event in events;
      if last.Call? {
        RowsStayCurrent(front, key, last.nowMs, waitMs, limits);
        CallTimesGoForward(front, key, last.nowMs);
        CallKeepsRow(RowsAfter(front, limits), last, key, CallTimes(front, key), t, waitMs, limits);
      } else {
        RowsStayCurrent(front, key, t, waitMs, limits);
        SweepKeepsRow(RowsAfter(front, limits), last, key, CallTimes(front, key), t, waitMs, limits);
      }
    }
  }

  lemma NothingIsCurrent(key: string, t: int, waitMs: int, limits: Limits)
    ensures RowIsCurrent(map[], key, [], t, waitMs, limits)
  {
  }

  /** Over any run of calls and sweeps, a call decides for its key as if there were no other keys and no sweeps: as
      the window over its own earlier calls. */
  lemma RunDecidesAsWindow(events: seq<Event>, key: string, nowMs: int, waitMs: int, limits: Limits)
    requires ForwardTo(events, nowMs) && WaitsWithin(events, key, waitMs) && IsHarmless(key, waitMs, limits)
    ensures Decides(HitsOf(RowsAfter(events, limits), key), nowMs, key, limits)
            == Decides(WindowOf(CallTimes(events, key), key, limits).hitsMs, nowMs, key, limits)
  {
    RowsStayCurrent(events, key, nowMs, waitMs, limits);
    CurrentRowDecides(RowsAfter(events, limits), key, CallTimes(events, key), nowMs, waitMs, limits);
  }

  /** So the hits a run admits are those of the key's own calls. */
  lemma {:induction false} RunAdmitsAsWindow(events: seq<Event>, key: string, t: int, waitMs: int, limits: Limits)
    requires ForwardTo(events, t) && WaitsWithin(events, key, waitMs) && IsHarmless(key, waitMs, limits)
    ensures Admitted(events, key, limits) == WindowOf(CallTimes(events, key), key, limits).admitted
  {
    hide ForwardTo, DecideSlidingWindow;
    if events != [] {
      SplitForward(events, t);
      var front, last := events[..|events| - 1], events[|events| - 1];
      assert forall event | event in front :: event in events;
      RunAdmitsAsWindow(front, key, t, waitMs, limits);
      if last.Call? && last.key == key {
        RunDecidesAsWindow(front, key, last.nowMs, waitMs, limits);
        assert CallTimes(events, key)[..|CallTimes(front, key)|] == CallTimes(front, key);
      }
    }
  }

  /** And in no run does any window of a key's length hold more admitted hits than its limit. */
  lemma NoRunExceedsLimit(events: seq<Event>, key: string, t: int, x: int, waitMs: int, limits: Limits)
    requires ForwardTo(events, t) && WaitsWithin(events, key, waitMs) && IsHarmless(key, waitMs, limits)
    ensures |Within(Admitted(events, key, limits), x, limits.windowOf(key))| <= Max(limits.limitOf(key), 0)
  {
    RunAdmitsAsWindow(events, key, t, waitMs, limits);
    CallTimesGoForward(events, key, t);
    NoWindowExceedsLimit(CallTimes(events, key), t, x, limits.limitOf(key), limits.windowOf(key));
  }

  // A longer wait

  /** `n` calls that all began at 0 and waited as long. */
  function Burst(n: nat, key: string, waitMs: int): seq<Event> {
    if n == 0 then [] else Burst(n - 1, key, waitMs) + [Call(key, 0, waitMs)]
  }

  lemma {:induction false} BurstIsForward(n: nat, key: string, waitMs: int)
    ensures forall event | event in Burst(n, key, waitMs) :: event == Call(key, 0, waitMs)
  {
    if n > 0 {
      BurstIsForward(n - 1, key, waitMs);
    }
  }

  function Copies(n: nat, hitMs: int): (hits: seq<int>)
    ensures |hits| == n && forall i | 0 <= i < n :: hits[i] == hitMs
  {
    if n == 0 then [] else Copies(n - 1, hitMs) + [hitMs]
  }

  lemma OneMoreCopy(n: nat, key: string, hitMs: int, limits: Limits)
    requires n < limits.limitOf(key) && limits.windowOf(key) >= 1
    ensures Decides(Copies(n, hitMs), hitMs, key, limits) == (Allowed, Copies(n + 1, hitMs))
  {
    Paging.FilterAll((hit: int) => hit > hitMs - limits.windowOf(key) * 1000, Copies(n, hitMs));
  }

  lemma {:induction false} WindowOfCopies(n: nat, key: string, hitMs: int, limits: Limits)
    requires n <= limits.limitOf(key) && limits.windowOf(key) >= 1
    ensures WindowOf(Copies(n, hitMs), key, limits) == Window(Copies(n, hitMs), Copies(n, hitMs))
  {
    hide DecideSlidingWindow;
    if n > 0 {
      WindowOfCopies(n - 1, key, hitMs, limits);
      OneMoreCopy(n - 1, key, hitMs, limits);
      assert Copies(n, hitMs)[..n - 1] == Copies(n - 1, hitMs);
    }
  }

  lemma OneMoreCall(events: seq<Event>, key: string, startedMs: int, nowMs: int, limits: Limits)
    ensures var after := events + [Call(key, startedMs, nowMs)];
            var (decision, hits) := Decides(HitsOf(RowsAfter(events, limits), key), nowMs, key, limits);
            && RowsAfter(after, limits) == RowsAfter(events, limits)[key := Row(hits, startedMs)]
            && CallTimes(after, key) == CallTimes(events, key) + [nowMs]
            && Admitted(after, key, limits)
               == Admitted(events, key, limits) + if decision.Allowed? then [nowMs] else []
  {
    hide DecideSlidingWindow, HitsOf;
    assert (events + [Call(key, startedMs, nowMs)])[..|events|] == events;
  }

  lemma OneMoreSweep(events: seq<Event>, key: string, nowMs: int, limits: Limits)
    ensures var after := events + [Sweep(nowMs)];
            && RowsAfter(after, limits) == AfterSweep(RowsAfter(events, limits), nowMs, limits.longestSec)
            && CallTimes(after, key) == CallTimes(events, key)
            && Admitted(after, key, limits) == Admitted(events, key, limits)
  {
    hide DecideSlidingWindow, AfterSweep;
    assert (events + [Sweep(nowMs)])[..|events|] == events;
  }

  /** As many calls as the limit are all admitted. */
  lemma {:induction false} BurstIsAdmitted(n: nat, key: string, waitMs: int, limits: Limits)
    requires n <= limits.limitOf(key) && limits.windowOf(key) >= 1
    ensures var burst := Burst(n, key, waitMs);
            && CallTimes(burst, key) == Copies(n, waitMs) && Admitted(burst, key, limits) == Copies(n, waitMs)
            && RowsAfter(burst, limits) == if n == 0 then map[] else map[key := Row(Copies(n, waitMs), 0)]
  {
    hide Decides, RowsAfter, CallTimes, Admitted;
    if n == 0 {
      NothingHappened(key, limits);
    } else {
      BurstIsAdmitted(n - 1, key, waitMs, limits);
      OneMoreCopy(n - 1, key, waitMs, limits);
      OneMoreCall(Burst(n - 1, key, waitMs), key, 0, waitMs, limits);
    }
  }

  lemma NothingHappened(key: string, limits: Limits)
    ensures RowsAfter([], limits) == map[] && CallTimes([], key) == [] && Admitted([], key, limits) == []
  {
  }

  /** When the burst's row is swept: as early as the sweep can, but not before the burst. */
  function SweptMs(waitMs: int, limits: Limits): int {
    Max(limits.longestSec * 1000 + 1, waitMs)
  }

  function SweptBurst(key: string, waitMs: int, limits: Limits): seq<Event>
    requires limits.limitOf(key) >= 1
  {
    Burst(limits.limitOf(key), key, waitMs) + [Sweep(SweptMs(waitMs, limits))]
  }

  lemma SweptBurstIsForward(key: string, waitMs: int, limits: Limits)
    requires limits.limitOf(key) >= 1
    ensures ForwardTo(SweptBurst(key, waitMs, limits), SweptMs(waitMs, limits))
    ensures WaitsWithin(SweptBurst(key, waitMs, limits), key, waitMs)
  {
    BurstIsForward(limits.limitOf(key), key, waitMs);
    var burst := Burst(limits.limitOf(key), key, waitMs);
    assert forall i | 0 <= i < |burst| :: burst[i] in burst;
  }

  /** Every limiter that ever admits a call forgets a full window after a wait one millisecond longer: the row is gone,
      its hits are live, and the next call gets in. */
  lemma LongWaitForgetsLiveHits(key: string, waitMs: int, limits: Limits)
    requires !IsHarmless(key, waitMs, limits)
    ensures var events, t := SweptBurst(key, waitMs, limits), SweptMs(waitMs, limits);
            && Decides(HitsOf(RowsAfter(events, limits), key), t, key, limits).0.Allowed?
            && Decides(WindowOf(CallTimes(events, key), key, limits).hitsMs, t, key, limits).0.Denied?
            && Admitted(events, key, limits) == Copies(limits.limitOf(key), waitMs)
  {
    hide RowsAfter, CallTimes, Admitted, DecideSlidingWindow, WindowOf, Burst, Copies;
    var limit, t := limits.limitOf(key), SweptMs(waitMs, limits);
    BurstIsAdmitted(limit, key, waitMs, limits);
    WindowOfCopies(limit, key, waitMs, limits);
    OneMoreSweep(Burst(limit, key, waitMs), key, t, limits);
    assert HitsOf(RowsAfter(SweptBurst(key, waitMs, limits), limits), key) == [];
    FullWindowDenies(limit, key, waitMs, t, limits);
  }

  lemma FullWindowDenies(n: nat, key: string, hitMs: int, t: int, limits: Limits)
    requires n == limits.limitOf(key) >= 1 && hitMs > t - limits.windowOf(key) * 1000
    ensures Decides(Copies(n, hitMs), t, key, limits).0.Denied? && Decides([], t, key, limits).0.Allowed?
  {
    var empty: seq<int> := [];
    assert Live(empty, t, limits.windowOf(key)) == [];
    Paging.FilterAll((hit: int) => hit > t - limits.windowOf(key) * 1000, Copies(n, hitMs));
  }

  /** Whatever the calls and sweeps, as long as no call of the key waits longer than this. */
  ghost predicate AlwaysDecidesAsWindow(key: string, waitMs: int, limits: Limits) {
    forall events, nowMs | ForwardTo(events, nowMs) && WaitsWithin(events, key, waitMs) ::
      Decides(HitsOf(RowsAfter(events, limits), key), nowMs, key, limits)
      == Decides(WindowOf(CallTimes(events, key), key, limits).hitsMs, nowMs, key, limits)
  }

  ghost predicate NeverExceedsLimit(key: string, waitMs: int, limits: Limits) {
    forall events, t, x | ForwardTo(events, t) && WaitsWithin(events, key, waitMs) ::
      |Within(Admitted(events, key, limits), x, limits.windowOf(key))| <= Max(limits.limitOf(key), 0)
  }

  /** Sweeping changes no decision in any run exactly when waits exceed the slack between the sweep's window and the
      limiter's by a millisecond at most; a limiter that admits nothing, or whose window is empty, is safe anyway. */
  lemma DecidesAsWindowExactlyWhen(key: string, waitMs: int, limits: Limits)
    ensures AlwaysDecidesAsWindow(key, waitMs, limits) <==> IsHarmless(key, waitMs, limits)
  {
    hide ForwardTo, WaitsWithin, RowsAfter, CallTimes, Decides, WindowOf, IsHarmless;
    if IsHarmless(key, waitMs, limits) {
      forall events, nowMs | ForwardTo(events, nowMs) && WaitsWithin(events, key, waitMs)
        ensures Decides(HitsOf(RowsAfter(events, limits), key), nowMs, key, limits)
                == Decides(WindowOf(CallTimes(events, key), key, limits).hitsMs, nowMs, key, limits)
      {
        RunDecidesAsWindow(events, key, nowMs, waitMs, limits);
      }
    } else {
      HarmfulAdmits(key, waitMs, limits);
      SweptBurstIsForward(key, waitMs, limits);
      LongWaitForgetsLiveHits(key, waitMs, limits);
    }
  }

  lemma HarmfulAdmits(key: string, waitMs: int, limits: Limits)
    requires !IsHarmless(key, waitMs, limits)
    ensures limits.limitOf(key) >= 1 && limits.windowOf(key) >= 1
    ensures SweptMs(waitMs, limits) < waitMs + limits.windowOf(key) * 1000 && waitMs <= SweptMs(waitMs, limits)
  {
  }

  function OneCallMore(key: string, waitMs: int, limits: Limits): seq<Event>
    requires limits.limitOf(key) >= 1
  {
    SweptBurst(key, waitMs, limits) + [Call(key, SweptMs(waitMs, limits) - waitMs, SweptMs(waitMs, limits))]
  }

  lemma OneCallMoreIsForward(key: string, waitMs: int, limits: Limits)
    requires limits.limitOf(key) >= 1
    ensures ForwardTo(OneCallMore(key, waitMs, limits), SweptMs(waitMs, limits))
    ensures WaitsWithin(OneCallMore(key, waitMs, limits), key, waitMs)
  {
    hide SweptBurst, SweptMs;
    SweptBurstIsForward(key, waitMs, limits);
    var front := SweptBurst(key, waitMs, limits);
    assert forall i | 0 <= i < |front| :: front[i] in front;
  }

  /** And so one hit more than the limit is admitted within one window. */
  lemma LongWaitExceedsLimit(key: string, waitMs: int, limits: Limits)
    requires !IsHarmless(key, waitMs, limits)
    ensures var t, windowSec := SweptMs(waitMs, limits), limits.windowOf(key);
            |Within(Admitted(OneCallMore(key, waitMs, limits), key, limits), t - windowSec * 1000, windowSec)|
            == limits.limitOf(key) + 1
  {
    hide IsHarmless, SweptMs, SweptBurst, Decides, RowsAfter, CallTimes, Admitted, WindowOf;
    HarmfulAdmits(key, waitMs, limits);
    LongWaitForgetsLiveHits(key, waitMs, limits);
    var limit, t, windowSec := limits.limitOf(key), SweptMs(waitMs, limits), limits.windowOf(key);
    OneMoreCall(SweptBurst(key, waitMs, limits), key, t - waitMs, t, limits);
    var x := t - windowSec * 1000;
    Paging.FilterAll((hit: int) => x < hit <= x + windowSec * 1000, Copies(limit, waitMs) + [t]);
  }

  /** No run admits more than the limit within one window exactly under the same condition. */
  lemma NeverExceedsLimitExactlyWhen(key: string, waitMs: int, limits: Limits)
    ensures NeverExceedsLimit(key, waitMs, limits) <==> IsHarmless(key, waitMs, limits)
  {
    hide ForwardTo, WaitsWithin, Admitted, Within, IsHarmless, OneCallMore, SweptMs;
    if IsHarmless(key, waitMs, limits) {
      forall events, t, x | ForwardTo(events, t) && WaitsWithin(events, key, waitMs)
        ensures |Within(Admitted(events, key, limits), x, limits.windowOf(key))| <= Max(limits.limitOf(key), 0)
      {
        NoRunExceedsLimit(events, key, t, x, waitMs, limits);
      }
    } else {
      HarmfulAdmits(key, waitMs, limits);
      OneCallMoreIsForward(key, waitMs, limits);
      LongWaitExceedsLimit(key, waitMs, limits);
    }
  }
}
