/** The sliding-window limiter and its table of hits
    (apps/server/src/plugins/rate-limit.ts and apps/server/src/repos/rate-limit-repo.ts). */
module RateLimit {
  import opened Wrappers
  import opened Ordering
  import opened Paging

  datatype Decision = Allowed | Denied(retryAfterSec: int)

  /** `Math.ceil(a / b)` for a positive b. */
  function CeilDiv(a: int, b: int): int
    requires b > 0
  {
    -((-a) / b)
  }

  function Max(a: int, b: int): int {
    if a >= b then a else b
  }

  /** The hits still inside the window at `nowMs`. */
  function Live(hitsMs: seq<int>, nowMs: int, windowSec: int): seq<int> {
    Filter((hitMs: int) => hitMs > nowMs - windowSec * 1000, hitsMs)
  }

  function DecideSlidingWindow(hitsMs: seq<int>, nowMs: int, limit: int, windowSec: int): (Decision, seq<int>) {
    var recent := Live(hitsMs, nowMs, windowSec);
    if |recent| >= limit then
      var oldest := if recent == [] then nowMs else recent[0];
      (Denied(Max(1, CeilDiv(oldest + windowSec * 1000 - nowMs, 1000))), recent)
    else (Allowed, recent + [nowMs])
  }

  /** What one key's row holds after calls at the given times, and every hit admitted so far. */
  datatype Window = Window(hitsMs: seq<int>, admitted: seq<int>)

  function Admit(w: Window, nowMs: int, limit: int, windowSec: int): Window {
    var (decision, hits) := DecideSlidingWindow(w.hitsMs, nowMs, limit, windowSec);
    Window(hits, if decision.Allowed? then w.admitted + [nowMs] else w.admitted)
  }

  function After(times: seq<int>, limit: int, windowSec: int): Window {
    if times == [] then Window([], [])
    else Admit(After(times[..|times| - 1], limit, windowSec), times[|times| - 1], limit, windowSec)
  }

  /** The clock does not run backwards, and `t` is not before the last call. */
  ghost predicate ClockUpTo(times: seq<int>, t: int) {
    times == [] || (times[|times| - 1] <= t && ClockUpTo(times[..|times| - 1], times[|times| - 1]))
  }

  lemma {:induction false} LiveAppend(hits: seq<int>, hit: int, nowMs: int, windowSec: int)
    ensures Live(hits + [hit], nowMs, windowSec)
            == Live(hits, nowMs, windowSec) + if hit > nowMs - windowSec * 1000 then [hit] else []
  {
    FilterAppend((hitMs: int) => hitMs > nowMs - windowSec * 1000, hits, [hit]);
  }

  /** Trimming earlier and then again is trimming once. */
  lemma LiveTwice(hits: seq<int>, earlier: int, nowMs: int, windowSec: int)
    requires earlier <= nowMs
    ensures Live(Live(hits, earlier, windowSec), nowMs, windowSec) == Live(hits, nowMs, windowSec)
  {
    FilterTwice((hitMs: int) => hitMs > nowMs - windowSec * 1000, (hitMs: int) => hitMs > earlier - windowSec * 1000,
                hits);
  }

  /** The trimmed list and the whole history of admitted hits agree on every later moment. */
  lemma {:induction false} TrimmingIsHarmless(times: seq<int>, t: int, limit: int, windowSec: int)
    requires ClockUpTo(times, t)
    ensures var w := After(times, limit, windowSec);
            Live(w.hitsMs, t, windowSec) == Live(w.admitted, t, windowSec)
  {
    if times == [] {
    } else {
      var front, now := times[..|times| - 1], times[|times| - 1];
      TrimmingIsHarmless(front, now, limit, windowSec);
      var w := After(front, limit, windowSec);
      var recent := Live(w.hitsMs, now, windowSec);
      LiveTwice(w.hitsMs, now, t, windowSec);
      LiveTwice(w.admitted, now, t, windowSec);
      LiveAppend(recent, now, t, windowSec);
      LiveAppend(w.admitted, now, t, windowSec);
    }
  }

  /** So each decision is the one a filter over the full history would make. */
  lemma DecidesAsFullHistory(times: seq<int>, nowMs: int, limit: int, windowSec: int)
    requires ClockUpTo(times, nowMs)
    ensures var w := After(times, limit, windowSec);
            DecideSlidingWindow(w.hitsMs, nowMs, limit, windowSec)
            == DecideSlidingWindow(w.admitted, nowMs, limit, windowSec)
  {
    TrimmingIsHarmless(times, nowMs, limit, windowSec);
  }

  /** The admitted hits in (x, x + window]. */
  function Within(hits: seq<int>, x: int, windowSec: int): seq<int> {
    Filter((hitMs: int) => x < hitMs <= x + windowSec * 1000, hits)
  }

  lemma {:induction false} WithinOfLive(hits: seq<int>, nowMs: int, x: int, windowSec: int)
    requires x < nowMs <= x + windowSec * 1000
    ensures |Within(hits, x, windowSec)| <= |Live(hits, nowMs, windowSec)|
  {
    FilterShrinks((hitMs: int) => x < hitMs <= x + windowSec * 1000, (hitMs: int) => hitMs > nowMs - windowSec * 1000,
                  hits);
  }

  /** No window of the given length, wherever it starts, ever holds more admitted hits than the limit. */
  lemma {:induction false} NoWindowExceedsLimit(times: seq<int>, t: int, x: int, limit: int, windowSec: int)
    requires ClockUpTo(times, t)
    ensures |Within(After(times, limit, windowSec).admitted, x, windowSec)| <= Max(limit, 0)
  {
    if times == [] {
    } else {
      var front, now := times[..|times| - 1], times[|times| - 1];
      NoWindowExceedsLimit(front, now, x, limit, windowSec);
      var w := After(front, limit, windowSec);
      TrimmingIsHarmless(front, now, limit, windowSec);
      FilterAppend((hitMs: int) => x < hitMs <= x + windowSec * 1000, w.admitted, [now]);
      if x < now <= x + windowSec * 1000 {
        WithinOfLive(w.admitted, now, x, windowSec);
      }
    }
  }

  ghost predicate NonDecreasing(s: seq<int>) {
    forall i, j | 0 <= i < j < |s| :: s[i] <= s[j]
  }

  lemma {:induction false} FilterKeepsOrder(p: int -> bool, s: seq<int>)
    requires NonDecreasing(s)
    ensures NonDecreasing(Filter(p, s))
  {
    if s != [] {
      FilterKeepsOrder(p, s[1..]);
      forall j | 0 <= j < |Filter(p, s[1..])|
        ensures s[0] <= Filter(p, s[1..])[j]
      {
        FilterElements(p, s[1..], Filter(p, s[1..])[j]);
      }
    }
  }

  lemma {:induction false} FilterIsNoLonger(p: int -> bool, s: seq<int>)
    ensures |Filter(p, s)| <= |s|
    ensures s != [] && !p(s[0]) ==> |Filter(p, s)| < |s|
  {
    if s != [] {
      FilterIsNoLonger(p, s[1..]);
    }
  }

  lemma LiveKeepsOrder(hits: seq<int>, nowMs: int, windowSec: int)
    requires NonDecreasing(hits)
    ensures NonDecreasing(Live(hits, nowMs, windowSec)) && |Live(hits, nowMs, windowSec)| <= |hits|
    ensures hits != [] && hits[0] <= nowMs - windowSec * 1000 ==> |Live(hits, nowMs, windowSec)| < |hits|
    ensures hits != [] && hits[0] > nowMs - windowSec * 1000 ==> Live(hits, nowMs, windowSec) == hits
  {
    var p := (hitMs: int) => hitMs > nowMs - windowSec * 1000;
    FilterKeepsOrder(p, hits);
    FilterIsNoLonger(p, hits);
    if hits != [] && p(hits[0]) {
      forall h | h in hits
        ensures p(h)
      {
        assert hits[0] <= h;
      }
      FilterAll(p, hits);
    }
  }

  /** A row never holds more hits than the limit, and holds them in order. */
  lemma {:induction false} RowIsSmallAndOrdered(times: seq<int>, t: int, limit: int, windowSec: int)
    requires ClockUpTo(times, t)
    ensures var hits := After(times, limit, windowSec).hitsMs;
            |hits| <= Max(limit, 0) && NonDecreasing(hits) && forall h | h in hits :: h <= t
  {
    hide Live;
    if times == [] {
    } else {
      var front, now := times[..|times| - 1], times[|times| - 1];
      RowIsSmallAndOrdered(front, now, limit, windowSec);
      var hits := After(front, limit, windowSec).hitsMs;
      LiveKeepsOrder(hits, now, windowSec);
      forall i | 0 <= i < |Live(hits, now, windowSec)|
        ensures Live(hits, now, windowSec)[i] in hits
      {
        LiveIsPart(hits, now, windowSec, Live(hits, now, windowSec)[i]);
      }
    }
  }

  lemma LiveIsPart(hits: seq<int>, nowMs: int, windowSec: int, h: int)
    ensures h in Live(hits, nowMs, windowSec) ==> h in hits
  {
    FilterElements((hitMs: int) => hitMs > nowMs - windowSec * 1000, hits, h);
  }

  /** Once a call was denied, every call is until its oldest live hit leaves the window. */
  lemma {:induction false} DeniedUntilFree(times: seq<int>, nowMs: int, between: seq<int>, t: int, limit: int,
                                           windowSec: int)
    requires ClockUpTo(times + [nowMs] + between, t) && limit >= 1
    requires var live := Live(After(times, limit, windowSec).admitted, nowMs, windowSec);
             |live| >= limit && t < live[0] + windowSec * 1000
    ensures var w := After(times + [nowMs] + between, limit, windowSec);
            && w.admitted == After(times, limit, windowSec).admitted
            && DecideSlidingWindow(w.hitsMs, t, limit, windowSec).0.Denied?
    decreases |between|
  {
    var all, last := times + [nowMs] + between, if between == [] then nowMs else between[|between| - 1];
    var front := if between == [] then times else times + [nowMs] + between[..|between| - 1];
    assert all[..|all| - 1] == front && all[|all| - 1] == last;
    DecidesAsFullHistory(all, t, limit, windowSec);
    DecidesAsFullHistory(front, last, limit, windowSec);
    ClockPrefix(times + [nowMs], between, t);
    assert (times + [nowMs])[..|times|] == times;
    HistoryStaysFull(times, nowMs, t, limit, windowSec);
    if between != [] {
      DeniedUntilFree(times, nowMs, between[..|between| - 1], last, limit, windowSec);
    }
  }

  lemma {:induction false} ClockPrefix(front: seq<int>, back: seq<int>, t: int)
    requires ClockUpTo(front + back, t)
    ensures ClockUpTo(front, t)
    decreases |back|
  {
    if back == [] {
      assert front + back == front;
    } else {
      var n := |back| - 1;
      assert (front + back)[..|front + back| - 1] == front + back[..n];
      ClockPrefix(front, back[..n], back[n]);
    }
  }

  /** While its oldest hit is live a full history stays full. */
  lemma HistoryStaysFull(times: seq<int>, nowMs: int, t: int, limit: int, windowSec: int)
    requires ClockUpTo(times, nowMs) && nowMs <= t && limit >= 1
    ensures var admitted := After(times, limit, windowSec).admitted;
            var live := Live(admitted, nowMs, windowSec);
            && |live| <= limit && NonDecreasing(live)
            && (|live| == limit ==>
                  (DecideSlidingWindow(admitted, t, limit, windowSec).0.Denied? <==> t < live[0] + windowSec * 1000))
  {
    hide Live, After, NonDecreasing;
    var w := After(times, limit, windowSec);
    TrimmingIsHarmless(times, nowMs, limit, windowSec);
    RowIsSmallAndOrdered(times, nowMs, limit, windowSec);
    LiveKeepsOrder(w.hitsMs, nowMs, windowSec);
    LiveTwice(w.admitted, nowMs, t, windowSec);
    LiveKeepsOrder(Live(w.admitted, nowMs, windowSec), t, windowSec);
  }

  /** The advice is right to the second, whatever else is called in the meantime: after retryAfterSec the caller gets
      in unless someone else was admitted while it waited, and, when the advice is two seconds or more, nobody is
      admitted for all but the last of them. */
  lemma RetryAfterIsExact(times: seq<int>, nowMs: int, between: seq<int>, limit: int, windowSec: int)
    requires limit >= 1 && ClockUpTo(times, nowMs)
    requires DecideSlidingWindow(After(times, limit, windowSec).hitsMs, nowMs, limit, windowSec).0.Denied?
    ensures var all := times + [nowMs] + between;
            var was, w := After(times, limit, windowSec), After(all, limit, windowSec);
            var wait := DecideSlidingWindow(was.hitsMs, nowMs, limit, windowSec).0.retryAfterSec;
            && wait >= 1
            && (ClockUpTo(all, nowMs + wait * 1000) && w.admitted == was.admitted ==>
                  DecideSlidingWindow(w.hitsMs, nowMs + wait * 1000, limit, windowSec).0.Allowed?)
            && (ClockUpTo(all, nowMs + (wait - 1) * 1000) && wait >= 2 ==>
                  && w.admitted == was.admitted
                  && DecideSlidingWindow(w.hitsMs, nowMs + (wait - 1) * 1000, limit, windowSec).0.Denied?)
  {
    hide Live, After, ClockUpTo, NonDecreasing;
    DecidesAsFullHistory(times, nowMs, limit, windowSec);
    var live := Live(After(times, limit, windowSec).admitted, nowMs, windowSec);
    var wait := DecideSlidingWindow(After(times, limit, windowSec).hitsMs, nowMs, limit, windowSec).0.retryAfterSec;
    var all := times + [nowMs] + between;
    HistoryStaysFull(times, nowMs, nowMs, limit, windowSec);
    HistoryStaysFull(times, nowMs, nowMs + wait * 1000, limit, windowSec);
    assert live[0] + windowSec * 1000 <= nowMs + wait * 1000;
    if ClockUpTo(all, nowMs + wait * 1000) {
      DecidesAsFullHistory(all, nowMs + wait * 1000, limit, windowSec);
    }
    if ClockUpTo(all, nowMs + (wait - 1) * 1000) && wait >= 2 {
      DeniedUntilFree(times, nowMs, between, nowMs + (wait - 1) * 1000, limit, windowSec);
    }
  }

  /** A row of `rate_limit_hits`; `updatedAtMs` is the start of the transaction that wrote it. */
  datatype Row = Row(hitsMs: seq<int>, updatedAtMs: int)

  function HitsOf(rows: map<string, Row>, key: string): seq<int> {
    if key in rows then rows[key].hitsMs else []
  }

  /** One call's transaction: the row of its key is rewritten, the rows of other keys never. */
  function AfterCall(rows: map<string, Row>, key: string, startedMs: int, nowMs: int, limit: int, windowSec: int)
    : map<string, Row>
  {
    rows[key := Row(DecideSlidingWindow(HitsOf(rows, key), nowMs, limit, windowSec).1, startedMs)]
  }

  /** The sweep keeps the rows written no more than `longestSec` ago. */
  function AfterSweep(rows: map<string, Row>, nowMs: int, longestSec: int): map<string, Row> {
    map key | key in rows && rows[key].updatedAtMs >= nowMs - longestSec * 1000 :: rows[key]
  }

  /** The limiter over its shared table, one transaction a call. */
  class PostgresSlidingWindowLimiter {
    const limit: int
    const windowSec: int
    var rows: map<string, Row>

    constructor (limit: int, windowSec: int, rows: map<string, Row>)
      ensures this.limit == limit && this.windowSec == windowSec && this.rows == rows
    {
      this.limit := limit;
      this.windowSec := windowSec;
      this.rows := rows;
    }

    method Allow(key: string, startedMs: int, nowMs: int) returns (decision: Decision)
      modifies this`rows
      ensures decision == DecideSlidingWindow(HitsOf(old(rows), key), nowMs, limit, windowSec).0
      ensures rows == AfterCall(old(rows), key, startedMs, nowMs, limit, windowSec)
    {
      var existing := if key in rows then rows[key].hitsMs else [];
      var (outcome, hitsMs) := DecideSlidingWindow(existing, nowMs, limit, windowSec);
      rows := rows[key := Row(hitsMs, startedMs)];
      return outcome;
    }

    /** Removes exactly the rows last written more than `windowSec` ago. */
    method DeleteExpiredRateLimitHits(nowMs: int, windowSec: int) returns (deleted: nat)
      modifies this`rows
      ensures rows == AfterSweep(old(rows), nowMs, windowSec)
      ensures deleted == |old(rows)| - |rows|
    {
      var expired := set key | key in rows && rows[key].updatedAtMs < nowMs - windowSec * 1000;
      assert expired <= rows.Keys;
      var kept := rows - expired;
      KeysSplit(rows, expired);
      assert |kept| <= |rows|;
      deleted := |rows| - |kept|;
      rows := kept;
    }
  }

  lemma KeysSplit(rows: map<string, Row>, gone: set<string>)
    requires gone <= rows.Keys
    ensures |rows - gone| == |rows| - |gone|
  {
    assert (rows - gone).Keys == rows.Keys - gone;
    assert |rows.Keys - gone| == |rows.Keys| - |gone|;
  }

  /** Losing a row leaves a later call's outcome as it was exactly when none of its hits is live then. */
  lemma {:induction false} LosingARow(row: Row, t: int, limit: int, windowSec: int)
    requires NonDecreasing(row.hitsMs)
    ensures DecideSlidingWindow(row.hitsMs, t, limit, windowSec) == DecideSlidingWindow([], t, limit, windowSec)
            <==> (row.hitsMs == [] || row.hitsMs[|row.hitsMs| - 1] <= t - windowSec * 1000)
  {
    var hits := row.hitsMs;
    var p := (hitMs: int) => hitMs > t - windowSec * 1000;
    var empty: seq<int> := [];
    assert Live(empty, t, windowSec) == [];
    if hits == [] {
    } else if !p(hits[|hits| - 1]) {
      NoneLive(hits, t, windowSec);
    } else {
      FilterElements(p, hits, hits[|hits| - 1]);
      LiveHitsShow(hits, t, limit, windowSec);
    }
  }

  lemma LiveHitsShow(hits: seq<int>, t: int, limit: int, windowSec: int)
    requires Live(hits, t, windowSec) != []
    ensures DecideSlidingWindow(hits, t, limit, windowSec) != DecideSlidingWindow([], t, limit, windowSec)
  {
    var live := Live(hits, t, windowSec);
    var empty: seq<int> := [];
    assert Live(empty, t, windowSec) == [];
    var (decision, kept) := DecideSlidingWindow(hits, t, limit, windowSec);
    var (decision', kept') := DecideSlidingWindow(empty, t, limit, windowSec);
    assert decision.Allowed? ==> |kept| == |live| + 1;
    assert decision.Denied? ==> |kept| == |live|;
  }

  lemma NoneLive(hits: seq<int>, t: int, windowSec: int)
    requires NonDecreasing(hits) && hits != [] && hits[|hits| - 1] <= t - windowSec * 1000
    ensures Live(hits, t, windowSec) == []
  {
    FilterNone((hitMs: int) => hitMs > t - windowSec * 1000, hits);
  }

  /** The sweep uses the longest window of all limiters. It forgets nothing that still counts as long as the row's
      hits came no later after its transaction began than that window exceeds its own, and a millisecond. */
  lemma SweepIsHarmless(row: Row, sweptMs: int, longestSec: int, t: int, limit: int, windowSec: int)
    requires NonDecreasing(row.hitsMs)
    requires row.updatedAtMs < sweptMs - longestSec * 1000 && sweptMs <= t
    requires row.hitsMs != [] ==> row.hitsMs[|row.hitsMs| - 1] <= row.updatedAtMs + (longestSec - windowSec) * 1000 + 1
    ensures DecideSlidingWindow(row.hitsMs, t, limit, windowSec) == DecideSlidingWindow([], t, limit, windowSec)
  {
    LosingARow(row, t, limit, windowSec);
  }
}
