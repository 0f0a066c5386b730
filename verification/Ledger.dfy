/** Realized profit of a trade history, matched first in first out
    (packages/core/src/agent-metrics/realized-result.ts, lines 15 to 126, and agent-activity.ts). */
module Ledger {
  import opened Wrappers
  import opened Ordering
  import opened Arithmetic
  import opened AddressText
  import opened Lots
  import Chains
  import DigitText
  import Decimal

  datatype PricingState = Pending | ServerPriced | Unpriced

  datatype ActivityLeg = ActivityLeg(tokenAddress: Option<string>, tokenDecimals: Option<int>,
                                     executedRaw: Option<string>, usdPriced: Option<string>)

  datatype AgentActivity = AgentActivity(activityId: int, observedAtSeconds: real, kind: string,
                                         chainFamily: Chains.ChainFamily, chainId: int,
                                         pricingState: PricingState, spent: ActivityLeg, received: ActivityLeg)

  datatype PricedLeg = PricedLeg(inventoryKey: string, quantity: int, usd: int)

  datatype SwapTrade = SwapTrade(disposal: PricedLeg, acquisition: PricedLeg)

  datatype RealizedResult = RealizedResult(realizedUsd: string, closedRoundTrips: nat, winningRoundTrips: nat,
                                           unmatchedDisposals: nat)

  /** The comparator of `chronological`: observation time, then activity id. */
  predicate ObservedBefore(left: AgentActivity, right: AgentActivity) {
    if left.observedAtSeconds != right.observedAtSeconds then left.observedAtSeconds < right.observedAtSeconds
    else left.activityId < right.activityId
  }

  function Chronological(activities: seq<AgentActivity>): seq<AgentActivity> {
    Sort(ObservedBefore, activities)
  }

  function IntegerText(n: int): string {
    (if n < 0 then "-" else "") + DigitText.TextOf(Magnitude(n))
  }

  function InventoryKeyOf(activity: AgentActivity, tokenAddress: string): string {
    Chains.FamilyText(activity.chainFamily) + ":" + IntegerText(activity.chainId) + ":" + ToLower(tokenAddress)
  }

  function PricedLegOf(activity: AgentActivity, leg: ActivityLeg): Result<Option<PricedLeg>, Decimal.Error> {
    if leg.tokenAddress.None? || leg.tokenDecimals.None? || leg.executedRaw.None? || leg.usdPriced.None? then Ok(None)
    else
      var quantity :- Decimal.DecimalFromRawAmount(leg.executedRaw.value, leg.tokenDecimals.value);
      var usd :- Decimal.DecimalFromText(leg.usdPriced.value);
      Ok(Some(PricedLeg(InventoryKeyOf(activity, leg.tokenAddress.value), quantity, usd)))
  }

  function SwapTradeOf(activity: AgentActivity): Result<Option<SwapTrade>, Decimal.Error> {
    if activity.kind != "swap" || !activity.pricingState.ServerPriced? then Ok(None)
    else
      var disposal :- PricedLegOf(activity, activity.spent);
      var acquisition :- PricedLegOf(activity, activity.received);
      Ok(if disposal.None? || acquisition.None? then None else Some(SwapTrade(disposal.value, acquisition.value)))
  }

  /** The trades of a history in its order, or the first malformed amount. */
  function TradesOf(activities: seq<AgentActivity>): Result<seq<SwapTrade>, Decimal.Error> {
    if activities == [] then Ok([])
    else
      var earlier :- TradesOf(activities[..|activities| - 1]);
      var trade :- SwapTradeOf(activities[|activities| - 1]);
      Ok(if trade.None? then earlier else earlier + [trade.value])
  }

  type Book = map<string, seq<Lot>>

  function Held(book: Book, key: string): seq<Lot> {
    if key in book then book[key] else []
  }

  datatype Standing = Standing(book: Book, realized: int, closed: nat, winning: nat, unmatched: nat)

  const OPENING := Standing(map[], 0, 0, 0, 0)

  function ConsumptionOf(book: Book, trade: SwapTrade): (Consumption, seq<Lot>) {
    Consume(Held(book, trade.disposal.inventoryKey), trade.disposal.quantity)
  }

  /** The share of a disposal's proceeds that met inventory; nothing when nothing was matched, so no
      proportion is ever taken of a zero quantity. */
  function MatchedProceedsOf(book: Book, trade: SwapTrade): int {
    var c := ConsumptionOf(book, trade).0;
    if c.consumedLots == 0 then 0
    else Decimal.ProportionOfDecimal(trade.disposal.usd, c.matchedQuantity, trade.disposal.quantity)
  }

  function Acquire(book: Book, leg: PricedLeg): Book {
    if leg.quantity <= 0 then book
    else book[leg.inventoryKey := Held(book, leg.inventoryKey) + [Lot(leg.quantity, leg.usd)]]
  }

  function Step(s: Standing, trade: SwapTrade): Standing {
    var (c, left) := ConsumptionOf(s.book, trade);
    var gain := MatchedProceedsOf(s.book, trade) - c.matchedCost;
    var closes := if c.consumedLots > 0 then 1 else 0;
    Standing(Acquire(s.book[trade.disposal.inventoryKey := left], trade.acquisition),
             s.realized + closes * gain,
             s.closed + closes,
             s.winning + (if c.consumedLots > 0 && gain > 0 then 1 else 0),
             s.unmatched + (if c.matchedQuantity < trade.disposal.quantity then 1 else 0))
  }

  function Run(trades: seq<SwapTrade>): Standing {
    if trades == [] then OPENING else Step(Run(trades[..|trades| - 1]), trades[|trades| - 1])
  }

  function Report(s: Standing): RealizedResult {
    RealizedResult(Decimal.DecimalToText(s.realized), s.closed, s.winning, s.unmatched)
  }

  function RealizedOf(activities: seq<AgentActivity>): Result<RealizedResult, Decimal.Error> {
    var trades :- TradesOf(Chronological(activities));
    Ok(Report(Run(trades)))
  }

  /** The Map from inventory key to queue; every key has a queue of its own. */
  class Inventory {
    var queues: map<string, LotQueue>

    ghost predicate Valid()
      reads this
    {
      forall k, l | k in queues && l in queues && k != l :: queues[k] != queues[l]
    }

    ghost function Contents(): Book
      reads this, queues.Values
    {
      map key | key in queues :: queues[key].lots
    }

    constructor ()
      ensures Valid() && queues == map[]
    {
      queues := map[];
    }

    method LotsFor(key: string) returns (queue: LotQueue)
      requires Valid()
      modifies this
      ensures Valid()
      ensures key in queues && queues[key] == queue
      ensures if key in old(queues) then queues == old(queues)
              else fresh(queue) && queue.lots == [] && queues == old(queues)[key := queue]
      ensures Contents() == old(Contents())[key := Held(old(Contents()), key)]
    {
      if key in queues {
        return queues[key];
      }
      queue := new LotQueue();
      queues := queues[key := queue];
    }

    /** Consuming from one key's queue leaves every other key's lots alone. */
    method Dispose(leg: PricedLeg) returns (consumption: Consumption)
      requires Valid()
      modifies this, queues.Values
      ensures Valid()
      ensures forall queue | queue in queues.Values :: queue in old(queues.Values) || fresh(queue)
      ensures var (c, left) := Consume(Held(old(Contents()), leg.inventoryKey), leg.quantity);
              consumption == c && Contents() == old(Contents())[leg.inventoryKey := left]
    {
      var queue := LotsFor(leg.inventoryKey);
      consumption := queue.ConsumeInventory(leg.quantity);
    }

    method Receive(leg: PricedLeg)
      requires Valid()
      modifies this, queues.Values
      ensures Valid()
      ensures forall queue | queue in queues.Values :: queue in old(queues.Values) || fresh(queue)
      ensures Contents() == Acquire(old(Contents()), leg)
    {
      if leg.quantity <= 0 {
        return;
      }
      var queue := LotsFor(leg.inventoryKey);
      queue.Push(Lot(leg.quantity, leg.usd));
    }

    /** One pass of the loop: dispose first, then receive, also when both legs share a queue. */
    method Settle(trade: SwapTrade) returns (consumption: Consumption, result: int)
      requires Valid()
      modifies this, queues.Values
      ensures Valid()
      ensures forall queue | queue in queues.Values :: queue in old(queues.Values) || fresh(queue)
      ensures var (c, left) := ConsumptionOf(old(Contents()), trade);
              && consumption == c
              && (c.consumedLots > 0 ==> result == MatchedProceedsOf(old(Contents()), trade) - c.matchedCost)
              && Contents() == Acquire(old(Contents())[trade.disposal.inventoryKey := left], trade.acquisition)
    {
      consumption := Dispose(trade.disposal);
      result := 0;
      if consumption.consumedLots > 0 {
        var matchedProceeds := Decimal.ProportionOfDecimal(trade.disposal.usd, consumption.matchedQuantity,
                                                           trade.disposal.quantity);
        result := matchedProceeds - consumption.matchedCost;
      }
      Receive(trade.acquisition);
    }
  }

  lemma {:induction false} FirstErrorStands(activities: seq<AgentActivity>, i: nat)
    requires i <= |activities|
    requires TradesOf(activities[..i]).Err?
    ensures TradesOf(activities) == Err(TradesOf(activities[..i]).error)
    decreases |activities|
  {
    if i == |activities| {
      assert activities[..i] == activities;
    } else {
      var front := activities[..|activities| - 1];
      assert front[..i] == activities[..i];
      FirstErrorStands(front, i);
    }
  }

  lemma TradesOfNext(activities: seq<AgentActivity>, n: nat)
    requires n < |activities|
    ensures TradesOf(activities[..n]).Ok? ==>
              var earlier, trade := TradesOf(activities[..n]).value, SwapTradeOf(activities[n]);
              TradesOf(activities[..n + 1]) ==
              if trade.Err? then Err(trade.error)
              else Ok(if trade.value.None? then earlier else earlier + [trade.value.value])
  {
    assert activities[..n + 1][..n] == activities[..n];
  }

  lemma RunNext(trades: seq<SwapTrade>, trade: SwapTrade)
    ensures Run(trades + [trade]) == Step(Run(trades), trade)
  {
    assert (trades + [trade])[..|trades|] == trades;
  }

  /** The step as the loop takes it: counters move on what was consumed. */
  lemma StepByCounter(s: Standing, trade: SwapTrade, c: Consumption, result: int)
    requires c == ConsumptionOf(s.book, trade).0
    requires c.consumedLots > 0 ==> result == MatchedProceedsOf(s.book, trade) - c.matchedCost
    ensures Step(s, trade) ==
            Standing(Acquire(s.book[trade.disposal.inventoryKey := ConsumptionOf(s.book, trade).1], trade.acquisition),
                     if c.consumedLots > 0 then s.realized + result else s.realized,
                     if c.consumedLots > 0 then s.closed + 1 else s.closed,
                     if c.consumedLots > 0 && result > 0 then s.winning + 1 else s.winning,
                     if c.matchedQuantity < trade.disposal.quantity then s.unmatched + 1 else s.unmatched)
  {
    hide ConsumptionOf, MatchedProceedsOf, Acquire;
  }

  lemma RunOfNone()
    ensures Run([]) == OPENING
  {
  }

  /** The loop over the sorted history, with its Map of queues and its counters, computes the
      standing after all trades, or stops at the first malformed amount. */
  method RealizedResultOf(activities: seq<AgentActivity>) returns (r: Result<RealizedResult, Decimal.Error>)
    ensures r == RealizedOf(activities)
  {
    hide Run, Step, ConsumptionOf, Acquire, MatchedProceedsOf, Chronological, SwapTradeOf;
    var inventory := new Inventory();
    var realized, closed, winning, unmatched := 0, 0, 0, 0;
    var history := Chronological(activities);
    ghost var trades := [];
    RunOfNone();
    for n := 0 to |history|
      invariant fresh(inventory) && inventory.Valid()
      invariant forall queue | queue in inventory.queues.Values :: fresh(queue)
      invariant TradesOf(history[..n]) == Ok(trades)
      invariant Run(trades) == Standing(inventory.Contents(), realized, closed, winning, unmatched)
    {
      TradesOfNext(history, n);
      var found := SwapTradeOf(history[n]);
      if found.Err? {
        FirstErrorStands(history, n + 1);
        return Err(found.error);
      }
      if found.value.None? {
        continue;
      }
      var trade := found.value.value;
      RunNext(trades, trade);
      ghost var before := Run(trades);
      trades := trades + [trade];
      var consumption, result := inventory.Settle(trade);
      StepByCounter(before, trade, consumption, result);
      if consumption.matchedQuantity < trade.disposal.quantity {
        unmatched := unmatched + 1;
      }
      if consumption.consumedLots > 0 {
        realized := realized + result;
        closed := closed + 1;
        if result > 0 {
          winning := winning + 1;
        }
      }
    }
    assert history[..|history|] == history;
    return Ok(RealizedResult(Decimal.DecimalToText(realized), closed, winning, unmatched));
  }

  /** With distinct activity ids the order the activities arrive in does not matter. */
  lemma OrderIndependence(s: seq<AgentActivity>, t: seq<AgentActivity>)
    requires forall i, j | 0 <= i < j < |s| :: s[i].activityId != s[j].activityId
    requires multiset(s) == multiset(t)
    ensures RealizedOf(s) == RealizedOf(t)
  {
    assert Separates(ObservedBefore, s);
    SortIgnoresArrangement(ObservedBefore, s, t);
  }

  function AcquiredQuantity(trades: seq<SwapTrade>, key: string): int {
    if trades == [] then 0
    else
      var leg := trades[|trades| - 1].acquisition;
      AcquiredQuantity(trades[..|trades| - 1], key)
      + if leg.inventoryKey == key && leg.quantity > 0 then leg.quantity else 0
  }

  /** The cost of the lots pushed for one key. */
  function PushedCost(trades: seq<SwapTrade>, key: string): int {
    if trades == [] then 0
    else
      var leg := trades[|trades| - 1].acquisition;
      PushedCost(trades[..|trades| - 1], key) + if leg.inventoryKey == key && leg.quantity > 0 then leg.usd else 0
  }

  function MatchedQuantity(trades: seq<SwapTrade>, key: string): int {
    if trades == [] then 0
    else
      var front, last := trades[..|trades| - 1], trades[|trades| - 1];
      MatchedQuantity(front, key)
      + if last.disposal.inventoryKey == key then ConsumptionOf(Run(front).book, last).0.matchedQuantity else 0
  }

  function MatchedCost(trades: seq<SwapTrade>, key: string): int {
    if trades == [] then 0
    else
      var front, last := trades[..|trades| - 1], trades[|trades| - 1];
      MatchedCost(front, key)
      + if last.disposal.inventoryKey == key then ConsumptionOf(Run(front).book, last).0.matchedCost else 0
  }

  function AcquiredBy(trade: SwapTrade, key: string): seq<Lot> {
    if trade.acquisition.inventoryKey == key && trade.acquisition.quantity > 0
    then [Lot(trade.acquisition.quantity, trade.acquisition.usd)] else []
  }

  /** A step leaves each key what its disposal left of it, then what was acquired. */
  lemma HeldAfterStep(s: Standing, trade: SwapTrade, key: string)
    ensures Held(Step(s, trade).book, key)
            == (if trade.disposal.inventoryKey == key then ConsumptionOf(s.book, trade).1 else Held(s.book, key))
               + AcquiredBy(trade, key)
  {
    hide ConsumptionOf, MatchedProceedsOf;
  }

  /** Per token key nothing is created or lost, in any history: what was acquired is what was matched
      plus what remains, exactly, in quantity and in cost; and every lot held is positive. */
  lemma {:induction false} LedgerConserves(trades: seq<SwapTrade>, key: string)
    ensures var lots := Held(Run(trades).book, key);
            && AcquiredQuantity(trades, key) == MatchedQuantity(trades, key) + TotalQuantity(lots)
            && PushedCost(trades, key) == MatchedCost(trades, key) + TotalCost(lots)
            && Positive(lots)
  {
    hide Step, Held;
    if trades == [] {
      EmptyBook(key);
    } else {
      var front, last := trades[..|trades| - 1], trades[|trades| - 1];
      LedgerConserves(front, key);
      var book := Run(front).book;
      var lots := Held(book, key);
      var left := if last.disposal.inventoryKey == key then ConsumptionOf(book, last).1 else lots;
      ConsumeConserves(lots, last.disposal.quantity);
      ConsumeTakesOldest(lots, last.disposal.quantity);
      TotalsOfAppend(left, Lot(last.acquisition.quantity, last.acquisition.usd));
      HeldAfterStep(Run(front), last, key);
      assert left + [] == left;
    }
  }

  lemma EmptyBook(key: string)
    ensures Held(OPENING.book, key) == []
  {
  }

  function TotalPushedCost(trades: seq<SwapTrade>): int {
    if trades == [] then 0
    else
      var leg := trades[|trades| - 1].acquisition;
      TotalPushedCost(trades[..|trades| - 1]) + if leg.quantity > 0 then leg.usd else 0
  }

  function TotalMatchedCost(trades: seq<SwapTrade>): int {
    if trades == [] then 0
    else
      var front, last := trades[..|trades| - 1], trades[|trades| - 1];
      TotalMatchedCost(front) + ConsumptionOf(Run(front).book, last).0.matchedCost
  }

  function TotalMatchedProceeds(trades: seq<SwapTrade>): int {
    if trades == [] then 0
    else
      var front, last := trades[..|trades| - 1], trades[|trades| - 1];
      TotalMatchedProceeds(front) + MatchedProceedsOf(Run(front).book, last)
  }

  /** The cost still held under the given keys. */
  function HeldCost(book: Book, keys: seq<string>): int {
    if keys == [] then 0 else TotalCost(Held(book, keys[0])) + HeldCost(book, keys[1..])
  }

  ghost predicate Distinct(keys: seq<string>) {
    forall i, j | 0 <= i < j < |keys| :: keys[i] != keys[j]
  }

  /** `keys` names every inventory the trades touch. */
  ghost predicate Covers(keys: seq<string>, trades: seq<SwapTrade>) {
    forall t | t in trades :: t.disposal.inventoryKey in keys && t.acquisition.inventoryKey in keys
  }

  lemma {:induction false} HeldCostAfterUpdate(book: Book, keys: seq<string>, key: string, lots: seq<Lot>)
    requires Distinct(keys)
    ensures HeldCost(book[key := lots], keys)
            == HeldCost(book, keys) + if key in keys then TotalCost(lots) - TotalCost(Held(book, key)) else 0
  {
    if keys == [] {
    } else {
      HeldCostAfterUpdate(book, keys[1..], key, lots);
      assert keys == [keys[0]] + keys[1..];
      assert keys[0] !in keys[1..];
    }
  }

  /** Over all keys the cost of the lots pushed is the cost matched plus the cost held. */
  lemma {:induction false} CostIsConserved(trades: seq<SwapTrade>, keys: seq<string>)
    requires Distinct(keys) && Covers(keys, trades)
    ensures TotalPushedCost(trades) == TotalMatchedCost(trades) + HeldCost(Run(trades).book, keys)
  {
    if trades == [] {
      EmptyBookHoldsNothing(keys);
    } else {
      var front, last := trades[..|trades| - 1], trades[|trades| - 1];
      CostIsConserved(front, keys);
      var book := Run(front).book;
      var left := ConsumptionOf(book, last).1;
      var disposed := book[last.disposal.inventoryKey := left];
      ConsumeConserves(Held(book, last.disposal.inventoryKey), last.disposal.quantity);
      HeldCostAfterUpdate(book, keys, last.disposal.inventoryKey, left);
      var key, lot := last.acquisition.inventoryKey, Lot(last.acquisition.quantity, last.acquisition.usd);
      TotalsOfAppend(Held(disposed, key), lot);
      HeldCostAfterUpdate(disposed, keys, key, Held(disposed, key) + [lot]);
    }
  }

  lemma {:induction false} EmptyBookHoldsNothing(keys: seq<string>)
    ensures HeldCost(map[], keys) == 0
  {
    if keys != [] {
      EmptyBookHoldsNothing(keys[1..]);
    }
  }

  /** The realized figure is the matched proceeds less the cost of everything bought plus the cost
      still held: truncation inside single cuts never leaks into the total. */
  lemma {:induction false} RealizedIsAccountedFor(trades: seq<SwapTrade>, keys: seq<string>)
    requires Distinct(keys) && Covers(keys, trades)
    ensures Run(trades).realized
            == TotalMatchedProceeds(trades) - TotalPushedCost(trades) + HeldCost(Run(trades).book, keys)
  {
    RealizedIsProceedsLessCost(trades);
    CostIsConserved(trades, keys);
  }

  lemma {:induction false} RealizedIsProceedsLessCost(trades: seq<SwapTrade>)
    ensures Run(trades).realized == TotalMatchedProceeds(trades) - TotalMatchedCost(trades)
  {
    if trades == [] {
    } else {
      RealizedIsProceedsLessCost(trades[..|trades| - 1]);
    }
  }

  lemma {:induction false} CountsAreBounded(trades: seq<SwapTrade>)
    ensures var s := Run(trades);
            s.winning <= s.closed <= |trades| && s.unmatched <= |trades|
  {
    if trades == [] {
    } else {
      CountsAreBounded(trades[..|trades| - 1]);
    }
  }

  /** When each counter moves: a disposal closes a round trip when it asks for something and the key
      holds something, and is unmatched when it asks for more than the key holds. */
  lemma CountersMeaning(trades: seq<SwapTrade>, trade: SwapTrade)
    ensures var before, after := Run(trades), Run(trades + [trade]);
            var lots, asked := Held(before.book, trade.disposal.inventoryKey), trade.disposal.quantity;
            && (after.closed == before.closed + if asked > 0 && lots != [] then 1 else 0)
            && (after.unmatched == before.unmatched + if asked > 0 && asked > TotalQuantity(lots) then 1 else 0)
            && (after.winning == before.winning + if after.realized > before.realized then 1 else 0)
  {
    RunNext(trades, trade);
    var lots := Held(Run(trades).book, trade.disposal.inventoryKey);
    LedgerConserves(trades, trade.disposal.inventoryKey);
    TotalQuantityPositive(lots);
    ConsumeTakesOldest(lots, trade.disposal.quantity);
  }
}
