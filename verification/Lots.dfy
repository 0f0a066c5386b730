/** A queue of cost lots consumed oldest first
    (packages/core/src/agent-metrics/realized-result.ts, lines 26 to 77). */
module Lots {
  import opened Arithmetic
  import Decimal

  datatype Lot = Lot(quantity: int, cost: int)

  datatype Consumption = Consumption(matchedCost: int, matchedQuantity: int, consumedLots: nat)

  const NOTHING := Consumption(0, 0, 0)

  function Combine(a: Consumption, b: Consumption): Consumption {
    Consumption(a.matchedCost + b.matchedCost, a.matchedQuantity + b.matchedQuantity, a.consumedLots + b.consumedLots)
  }

  /** The cost that leaves a lot with `taken` of its quantity, cut to whole units. */
  function CostOfPart(lot: Lot, taken: int): int
    requires lot.quantity != 0
  {
    Decimal.ProportionOfDecimal(lot.cost, taken, lot.quantity)
  }

  function Reduced(lot: Lot, taken: int): Lot
    requires lot.quantity != 0
  {
    Lot(lot.quantity - taken, lot.cost - CostOfPart(lot, taken))
  }

  /** What consuming `quantity` matches, and the lots it leaves. */
  function Consume(lots: seq<Lot>, quantity: int): (r: (Consumption, seq<Lot>))
    ensures r.0.consumedLots > 0 ==> quantity > 0
    ensures r.0.consumedLots == 0 ==> r == (NOTHING, lots)
  {
    if quantity <= 0 || lots == [] then (NOTHING, lots)
    else if lots[0].quantity <= quantity then
      var (later, left) := Consume(lots[1..], quantity - lots[0].quantity);
      (Combine(Consumption(lots[0].cost, lots[0].quantity, 1), later), left)
    else
      (Consumption(CostOfPart(lots[0], quantity), quantity, 1), [Reduced(lots[0], quantity)] + lots[1..])
  }

  /** The array of lots that `consumeInventory` shifts and shrinks in place. */
  class LotQueue {
    var lots: seq<Lot>

    constructor ()
      ensures lots == []
    {
      lots := [];
    }

    method Push(lot: Lot)
      modifies this
      ensures lots == old(lots) + [lot]
    {
      lots := lots + [lot];
    }

    method ConsumeInventory(quantity: int) returns (consumption: Consumption)
      modifies this
      ensures (consumption, lots) == Consume(old(lots), quantity)
    {
      hide *;
      ghost var whole := Consume(lots, quantity);
      var remaining := quantity;
      consumption := NOTHING;
      NothingTakenYet(whole);
      while remaining > 0
        invariant whole == After(consumption, Consume(lots, remaining))
        decreases |lots|, remaining
      {
        if lots == [] {
          break;
        }
        var oldest := lots[0];
        var taken := if oldest.quantity < remaining then oldest.quantity else remaining;
        var cost := if taken == oldest.quantity then oldest.cost else CostOfPart(oldest, taken);
        if taken == oldest.quantity {
          TakeWholeLot(consumption, lots, remaining);
        } else {
          TakePartOfLot(consumption, lots, remaining);
        }
        consumption := Consumption(consumption.matchedCost + cost, consumption.matchedQuantity + taken,
                                   consumption.consumedLots + 1);
        remaining := remaining - taken;
        if taken == oldest.quantity {
          lots := lots[1..];
          continue;
        }
        lots := [Lot(oldest.quantity - taken, oldest.cost - cost)] + lots[1..];
      }
      NothingLeftToTake(consumption, lots, remaining);
    }
  }

  /** What was taken so far, and then what a consumption of the rest takes. */
  function After(taken: Consumption, rest: (Consumption, seq<Lot>)): (Consumption, seq<Lot>) {
    (Combine(taken, rest.0), rest.1)
  }

  lemma NothingTakenYet(rest: (Consumption, seq<Lot>))
    ensures After(NOTHING, rest) == rest
  {
  }

  /** Nothing is asked for any more, or nothing is held. */
  lemma NothingLeftToTake(taken: Consumption, lots: seq<Lot>, remaining: int)
    requires remaining <= 0 || lots == []
    ensures After(taken, Consume(lots, remaining)) == (taken, lots)
  {
  }

  lemma TakeWholeLot(taken: Consumption, lots: seq<Lot>, remaining: int)
    requires remaining > 0 && lots != [] && lots[0].quantity <= remaining
    ensures After(taken, Consume(lots, remaining))
            == After(Consumption(taken.matchedCost + lots[0].cost, taken.matchedQuantity + lots[0].quantity,
                                 taken.consumedLots + 1),
                     Consume(lots[1..], remaining - lots[0].quantity))
  {
    hide CostOfPart;
  }

  lemma TakePartOfLot(taken: Consumption, lots: seq<Lot>, remaining: int)
    requires 0 < remaining && lots != [] && remaining < lots[0].quantity
    ensures var cost := CostOfPart(lots[0], remaining);
            After(taken, Consume(lots, remaining))
            == After(Consumption(taken.matchedCost + cost, taken.matchedQuantity + remaining, taken.consumedLots + 1),
                     Consume([Lot(lots[0].quantity - remaining, lots[0].cost - cost)] + lots[1..],
                             remaining - remaining))
  {
    hide CostOfPart;
  }

  ghost predicate Positive(lots: seq<Lot>) {
    forall i | 0 <= i < |lots| :: lots[i].quantity > 0
  }

  ghost predicate NonNegativeCosts(lots: seq<Lot>) {
    forall i | 0 <= i < |lots| :: lots[i].cost >= 0
  }

  function TotalQuantity(lots: seq<Lot>): int {
    if lots == [] then 0 else lots[0].quantity + TotalQuantity(lots[1..])
  }

  function TotalCost(lots: seq<Lot>): int {
    if lots == [] then 0 else lots[0].cost + TotalCost(lots[1..])
  }

  lemma {:induction false} TotalsOfAppend(lots: seq<Lot>, lot: Lot)
    ensures TotalQuantity(lots + [lot]) == TotalQuantity(lots) + lot.quantity
    ensures TotalCost(lots + [lot]) == TotalCost(lots) + lot.cost
  {
    if lots == [] {
    } else {
      assert (lots + [lot])[1..] == lots[1..] + [lot];
      TotalsOfAppend(lots[1..], lot);
    }
  }

  lemma {:induction false} TotalQuantityPositive(lots: seq<Lot>)
    requires Positive(lots)
    ensures TotalQuantity(lots) >= 0
    ensures lots != [] ==> TotalQuantity(lots) >= lots[0].quantity > 0
  {
    if lots == [] {
    } else {
      TotalQuantityPositive(lots[1..]);
    }
  }

  /** Quantity and cost are conserved exactly, truncation and all, for any lots and any quantity. */
  lemma {:induction false} ConsumeConserves(lots: seq<Lot>, quantity: int)
    ensures var (c, left) := Consume(lots, quantity);
            && c.matchedQuantity + TotalQuantity(left) == TotalQuantity(lots)
            && c.matchedCost + TotalCost(left) == TotalCost(lots)
  {
    if quantity <= 0 || lots == [] {
    } else if lots[0].quantity <= quantity {
      ConsumeConserves(lots[1..], quantity - lots[0].quantity);
    } else {
      var left := Consume(lots, quantity).1;
      assert left[1..] == lots[1..];
    }
  }

  /** As much as is asked for and held is matched, from the oldest lots: all but the first of the
      lots left over are untouched, and every lot that is left is positive. */
  lemma {:induction false} ConsumeTakesOldest(lots: seq<Lot>, quantity: int)
    requires Positive(lots)
    ensures var (c, left) := Consume(lots, quantity);
            && Positive(left)
            && c.matchedQuantity
               == (if quantity <= 0 then 0
                   else if quantity <= TotalQuantity(lots) then quantity else TotalQuantity(lots))
            && |left| <= |lots|
            && (left != [] ==> left[1..] == lots[|lots| - |left| + 1..])
            && (left != [] ==> left[0].quantity <= lots[|lots| - |left|].quantity)
            && (c.consumedLots > 0 <==> c.matchedQuantity > 0)
  {
    TotalQuantityPositive(lots);
    if quantity <= 0 || lots == [] {
    } else if lots[0].quantity <= quantity {
      TotalQuantityPositive(lots[1..]);
      ConsumeTakesOldest(lots[1..], quantity - lots[0].quantity);
    } else {
      var left := Consume(lots, quantity).1;
      assert left[1..] == lots[1..];
    }
  }

  /** The part of a non-negative cost is a floor between nothing and the whole. */
  lemma PartIsFloor(lot: Lot, taken: int)
    requires lot.cost >= 0 && 0 <= taken <= lot.quantity && lot.quantity > 0
    ensures 0 <= CostOfPart(lot, taken) <= lot.cost
    ensures CostOfPart(lot, taken) * lot.quantity
            <= lot.cost * taken < CostOfPart(lot, taken) * lot.quantity + lot.quantity
  {
    assert lot.cost * taken >= 0;
    TruncatedIsFloor(lot.cost * taken, lot.quantity);
    assert lot.cost * taken <= lot.cost * lot.quantity;
    CancelFactor(CostOfPart(lot, taken), lot.cost, lot.quantity);
  }

  /** What is left of a lot after `taken` of it: the rest of the quantity, and the rest of the cost but for the floor of
      the share that goes. */
  ghost predicate LosesItsShare(lot: Lot, left: Lot, taken: int) {
    var cost := lot.cost - left.cost;
    && left.quantity == lot.quantity - taken
    && cost * lot.quantity <= lot.cost * taken < cost * lot.quantity + lot.quantity
  }

  lemma NothingIsLost(lot: Lot)
    requires lot.quantity > 0
    ensures LosesItsShare(lot, lot, 0)
  {
  }

  lemma ReducedLosesItsShare(lot: Lot, taken: int)
    requires lot.cost >= 0 && 0 <= taken <= lot.quantity && lot.quantity > 0
    ensures LosesItsShare(lot, Reduced(lot, taken), taken)
  {
    PartIsFloor(lot, taken);
  }

  /** Lots go whole, oldest first; the oldest that is left loses what was asked for beyond the older ones, and its share
      of the cost. */
  lemma {:induction false} CutLotLosesItsShare(lots: seq<Lot>, quantity: int)
    requires Positive(lots) && forall i | 0 <= i < |lots| :: lots[i].cost >= 0
    ensures var left, asked := Consume(lots, quantity).1, if quantity <= 0 then 0 else quantity;
            && |left| <= |lots|
            && (left != [] ==>
                  var k := |lots| - |left|;
                  LosesItsShare(lots[k], left[0], asked - TotalQuantity(lots[..k])))
  {
    hide LosesItsShare, CostOfPart, Reduced;
    TotalQuantityPositive(lots);
    if quantity <= 0 || lots == [] {
      assert lots[..0] == [];
      if lots != [] {
        NothingIsLost(lots[0]);
      }
    } else if lots[0].quantity <= quantity {
      var left := Consume(lots[1..], quantity - lots[0].quantity).1;
      CutLotLosesItsShare(lots[1..], quantity - lots[0].quantity);
      if left != [] {
        assert lots[1..][..|lots| - 1 - |left|] == lots[..|lots| - |left|][1..];
      }
    } else {
      assert lots[..0] == [];
      ReducedLosesItsShare(lots[0], quantity);
    }
  }

  /** Two cuts against one: taking t1 and then t2 out of a lot costs what taking t1 + t2 costs,
      or one unit less. */
  lemma SplitPart(lot: Lot, t1: int, t2: int)
    requires lot.cost >= 0 && 0 < t1 && 0 < t2 && t1 + t2 < lot.quantity
    ensures var split := CostOfPart(lot, t1) + CostOfPart(Reduced(lot, t1), t2);
            CostOfPart(lot, t1 + t2) - 1 <= split <= CostOfPart(lot, t1 + t2)
  {
    var a, b, d := CostOfPart(lot, t1), CostOfPart(Reduced(lot, t1), t2), CostOfPart(lot, t1 + t2);
    PartIsFloor(lot, t1);
    PartIsFloor(Reduced(lot, t1), t2);
    PartIsFloor(lot, t1 + t2);
    SplitFloors(lot.cost, lot.quantity, t1, t2, a, b, d);
  }

  lemma SplitFloors(c: int, q: int, t1: int, t2: int, a: int, b: int, d: int)
    requires 0 < t1 && 0 < t2 && t1 + t2 < q
    requires a * q <= c * t1 < a * q + q
    requires b * (q - t1) <= (c - a) * t2 < b * (q - t1) + (q - t1)
    requires d * q <= c * (t1 + t2) < d * q + q
    ensures d - 1 <= a + b <= d
  {
    var m := q - t1;
    var r1, r2, r3 := c * t1 - a * q, (c - a) * t2 - b * m, c * (t1 + t2) - d * q;
    SplitExcess(c, q, m, t1, t2, a, b, d);
    SplitBounds(q, m, t2, r1, r2, r3, a + b - d);
  }

  lemma ScaledBelow(r: int, q: int, m: int)
    requires 0 <= r < q && m > 0
    ensures 0 <= r * m < q * m
  {
  }

  lemma SplitBounds(q: int, m: int, t2: int, r1: int, r2: int, r3: int, e: int)
    requires 0 < t2 < m
    requires 0 <= r1 < q && 0 <= r2 < m && 0 <= r3 < q
    requires e * (q * m) == r3 * m - r1 * (m - t2) - r2 * q
    ensures -1 <= e <= 0
  {
    ScaledBelow(r3, q, m);
    ScaledBelow(r1, q, m - t2);
    ScaledBelow(r2, m, q);
    ScaledBelow(m - t2, m, q);
    assert (m - t2) * q == q * (m - t2) && m * q == q * m;
    SmallExcess(e, q * m, r3 * m, r1 * (m - t2), r2 * q);
  }

  lemma SplitExcess(c: int, q: int, m: int, t1: int, t2: int, a: int, b: int, d: int)
    requires m == q - t1
    ensures var r1, r2, r3 := c * t1 - a * q, (c - a) * t2 - b * m, c * (t1 + t2) - d * q;
            (a + b - d) * (q * m) == r3 * m - r1 * (m - t2) - r2 * q
  {
  }

  lemma SmallExcess(e: int, k: int, x: int, y: int, z: int)
    requires 0 <= x < k && 0 <= y < k && 0 <= z < k
    requires e * k == x - y - z
    ensures -1 <= e <= 0
  {
    CancelFactor(e, 1, k);
    CancelFactor(-2, e, k);
  }

  /** Disposing of q1 and then q2 leaves the same quantities as disposing of q1 + q2; the matched
      cost is the same or exactly one unit lower, and that unit stays in the first remaining lot. */
  lemma {:induction false} SplittingADisposal(lots: seq<Lot>, q1: int, q2: int)
    requires Positive(lots) && NonNegativeCosts(lots)
    requires q1 >= 0 && q2 >= 0
    ensures var (c1, l1) := Consume(lots, q1);
            var (c2, l2) := Consume(l1, q2);
            var (c, l) := Consume(lots, q1 + q2);
            var shift := c.matchedCost - (c1.matchedCost + c2.matchedCost);
            && c1.matchedQuantity + c2.matchedQuantity == c.matchedQuantity
            && (shift == 0 || (shift == 1 && l != []))
            && l2 == (if shift == 0 then l else [Lot(l[0].quantity, l[0].cost + shift)] + l[1..])
  {
    if q1 == 0 || lots == [] {
    } else if lots[0].quantity <= q1 {
      SplittingADisposal(lots[1..], q1 - lots[0].quantity, q2);
    } else {
      SplittingTheOldest(lots, q1, q2);
    }
  }

  lemma SplittingTheOldest(lots: seq<Lot>, q1: int, q2: int)
    requires Positive(lots) && NonNegativeCosts(lots)
    requires lots != [] && 0 < q1 < lots[0].quantity && q2 >= 0
    ensures var (c1, l1) := Consume(lots, q1);
            var (c2, l2) := Consume(l1, q2);
            var (c, l) := Consume(lots, q1 + q2);
            var shift := c.matchedCost - (c1.matchedCost + c2.matchedCost);
            && c1.matchedQuantity + c2.matchedQuantity == c.matchedQuantity
            && (shift == 0 || (shift == 1 && l != []))
            && l2 == (if shift == 0 then l else [Lot(l[0].quantity, l[0].cost + shift)] + l[1..])
  {
    var l1 := Consume(lots, q1).1;
    assert l1[0] == Reduced(lots[0], q1) && l1[1..] == lots[1..];
    if 0 < q2 && q1 + q2 < lots[0].quantity {
      SplitPart(lots[0], q1, q2);
    }
  }

  /** A lot after several partial takes. */
  function AfterTakes(lot: Lot, takes: seq<int>): Lot
    requires lot.quantity > 0
    requires PartialTakes(lot.quantity, takes)
    decreases |takes|
  {
    if takes == [] then lot else AfterTakes(Reduced(lot, takes[0]), takes[1..])
  }

  /** Every take is positive and leaves something. */
  ghost predicate PartialTakes(quantity: int, takes: seq<int>) {
    takes == [] || (0 < takes[0] < quantity && PartialTakes(quantity - takes[0], takes[1..]))
  }

  /** One take keeps the unit cost from falling, and lifts the excess by less than one unit. */
  lemma OneTakeDrifts(whole: Lot, lot: Lot, taken: int, n: nat)
    requires whole.quantity > 0 && lot.cost >= 0 && 0 < taken < lot.quantity <= whole.quantity
    requires whole.cost * lot.quantity <= lot.cost * whole.quantity
    requires lot.cost * whole.quantity <= whole.cost * lot.quantity + n * whole.quantity
    ensures var after := Reduced(lot, taken);
            && after.cost >= 0
            && whole.cost * after.quantity <= after.cost * whole.quantity
            && after.cost * whole.quantity < whole.cost * after.quantity + (n + 1) * whole.quantity
  {
    var after := Reduced(lot, taken);
    PartIsFloor(lot, taken);
    var r := lot.cost * taken - CostOfPart(lot, taken) * lot.quantity;
    assert after.cost * lot.quantity == lot.cost * after.quantity + r;
    DriftStep(whole.cost, whole.quantity, lot.cost, lot.quantity, after.cost, after.quantity, r, n);
  }

  /** The equation of one take, times the whole quantity. */
  lemma ScaledTake(bigQ: int, c: int, q: int, c': int, q': int, r: int)
    requires c' * q == c * q' + r
    ensures (c' * bigQ) * q == (c * bigQ) * q' + r * bigQ
  {
    assert (c' * bigQ) * q == (c' * q) * bigQ;
    assert (c * q' + r) * bigQ == (c * bigQ) * q' + r * bigQ;
  }

  lemma DriftStep(bigC: int, bigQ: int, c: int, q: int, c': int, q': int, r: int, n: int)
    requires bigQ > 0 && 0 < q' < q && n >= 0
    requires 0 <= r < q
    requires c' * q == c * q' + r
    requires bigC * q <= c * bigQ <= bigC * q + n * bigQ
    ensures bigC * q' <= c' * bigQ < bigC * q' + (n + 1) * bigQ
  {
    ScaledTake(bigQ, c, q, c', q', r);
    DriftFromBelow(bigC, bigQ, c * bigQ, q, c' * bigQ, q', r);
    DriftFromAbove(bigC, bigQ, c * bigQ, q, c' * bigQ, q', r, n);
  }

  lemma DriftFromBelow(bigC: int, bigQ: int, x: int, q: int, x': int, q': int, r: int)
    requires bigQ > 0 && 0 < q' < q && r >= 0
    requires x' * q == x * q' + r * bigQ && bigC * q <= x
    ensures bigC * q' <= x'
  {
    assert (bigC * q') * q == (bigC * q) * q';
    assert (x - bigC * q) * q' >= 0;
    assert r * bigQ >= 0;
    CancelFactor(bigC * q', x', q);
  }

  lemma DriftFromAbove(bigC: int, bigQ: int, x: int, q: int, x': int, q': int, r: int, n: int)
    requires bigQ > 0 && 0 < q' < q && 0 <= r < q && n >= 0
    requires x' * q == x * q' + r * bigQ && x <= bigC * q + n * bigQ
    ensures x' < bigC * q' + (n + 1) * bigQ
  {
    var k := n * bigQ;
    assert k >= 0;
    assert (bigC * q + k - x) * q' >= 0;
    assert k * (q - q') >= 0;
    CancelFactor(r, q, bigQ);
    assert x' * q < (bigC * q' + k + bigQ) * q by {
      assert (bigC * q' + k + bigQ) * q == (bigC * q) * q' + k * q + bigQ * q;
    }
    CancelFactor(x', bigC * q' + k + bigQ, q);
    assert (n + 1) * bigQ == k + bigQ;
  }

  /** However often a lot bought as (Q, C) is cut, the cost c left on quantity q stays within
      C*q <= c*Q < C*q + n*Q after n >= 1 cuts: n cuts drift by less than n units. */
  lemma {:induction false} DriftIsBounded(whole: Lot, takes: seq<int>)
    requires whole.quantity > 0 && whole.cost >= 0
    requires PartialTakes(whole.quantity, takes)
    ensures var left := AfterTakes(whole, takes);
            && 0 < left.quantity && 0 <= left.cost
            && whole.cost * left.quantity <= left.cost * whole.quantity
            && (takes != [] ==> left.cost * whole.quantity < whole.cost * left.quantity + |takes| * whole.quantity)
  {
    DriftFrom(whole, whole, takes, 0);
  }

  lemma {:induction false} DriftFrom(whole: Lot, lot: Lot, takes: seq<int>, n: nat)
    requires whole.quantity > 0 && lot.cost >= 0 && 0 < lot.quantity <= whole.quantity
    requires PartialTakes(lot.quantity, takes)
    requires whole.cost * lot.quantity <= lot.cost * whole.quantity
    requires lot.cost * whole.quantity <= whole.cost * lot.quantity + n * whole.quantity
    ensures var left := AfterTakes(lot, takes);
            && 0 < left.quantity && 0 <= left.cost
            && whole.cost * left.quantity <= left.cost * whole.quantity
            && (takes != [] ==>
                  left.cost * whole.quantity < whole.cost * left.quantity + (n + |takes|) * whole.quantity)
    decreases |takes|
  {
    if takes == [] {
    } else {
      OneTakeDrifts(whole, lot, takes[0], n);
      DriftFrom(whole, Reduced(lot, takes[0]), takes[1..], n + 1);
      assert n + 1 + |takes[1..]| == n + |takes|;
    }
  }
}
