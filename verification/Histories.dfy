/** A profit ledger read off the activities of its history
    (packages/core/src/agent-metrics/realized-result.ts, agent-activity.ts). */
module Histories {
  import opened Wrappers
  import opened Ordering
  import opened Arithmetic
  import opened AddressText
  import opened Lots
  import opened Ledger
  import Chains
  import DigitText
  import Decimal

  // The trade of a swap

  /** Nothing about the leg is missing. */
  predicate IsComplete(leg: ActivityLeg) {
    leg.tokenAddress.Some? && leg.tokenDecimals.Some? && leg.executedRaw.Some? && leg.usdPriced.Some?
  }

  function QuantityOf(leg: ActivityLeg): Result<int, Decimal.Error>
    requires IsComplete(leg)
  {
    Decimal.DecimalFromRawAmount(leg.executedRaw.value, leg.tokenDecimals.value)
  }

  function UsdOf(leg: ActivityLeg): Result<int, Decimal.Error>
    requires IsComplete(leg)
  {
    Decimal.DecimalFromText(leg.usdPriced.value)
  }

  predicate IsWellFormed(leg: ActivityLeg) {
    IsComplete(leg) && QuantityOf(leg).Ok? && UsdOf(leg).Ok?
  }

  ghost predicate IsLegOf(priced: PricedLeg, activity: AgentActivity, leg: ActivityLeg) {
    && IsWellFormed(leg)
    && priced.quantity == QuantityOf(leg).value && priced.usd == UsdOf(leg).value
    && priced.inventoryKey == InventoryKeyOf(activity, leg.tokenAddress.value)
  }

  /** A priced swap disposes of what was spent and acquires what was received; it is a trade when neither leg lacks
      anything, and anything else is no trade. A leg is complained of only when nothing of it is missing. */
  lemma SwapSpendsAndReceives(activity: AgentActivity)
    ensures var trade := SwapTradeOf(activity);
            var counts := activity.kind == "swap" && activity.pricingState.ServerPriced?;
            && (trade.Ok? && trade.value.Some? <==>
                  counts && IsWellFormed(activity.spent) && IsWellFormed(activity.received))
            && (trade.Ok? && trade.value.Some? ==>
                  && IsLegOf(trade.value.value.disposal, activity, activity.spent)
                  && IsLegOf(trade.value.value.acquisition, activity, activity.received))
            && (trade.Err? <==>
                  && counts
                  && (|| (IsComplete(activity.spent) && !IsWellFormed(activity.spent))
                      || (IsComplete(activity.received) && !IsWellFormed(activity.received))))
  {
    hide InventoryKeyOf;
  }

  /** Two legs share an inventory exactly when chain family, chain and address agree, but for the case of letters. */
  lemma InventoryIsSharedExactlyWhen(a: AgentActivity, tokenA: string, b: AgentActivity, tokenB: string)
    ensures InventoryKeyOf(a, tokenA) == InventoryKeyOf(b, tokenB) <==>
              && a.chainFamily == b.chainFamily && a.chainId == b.chainId
              && |tokenA| == |tokenB| && forall i | 0 <= i < |tokenA| :: SameLetter(tokenA[i], tokenB[i])
  {
    hide SameLetter;
    SameLowerCase(tokenA, tokenB);
    KeyParts(a, tokenA);
    KeyParts(b, tokenB);
    IntegerTextIsInjective(a.chainId, b.chainId);
  }

  lemma KeyParts(activity: AgentActivity, token: string)
    ensures var key := InventoryKeyOf(activity, token);
            var (family, rest) := DigitText.SplitAt(key, ':');
            && family == Chains.FamilyText(activity.chainFamily) && rest.Some?
            && DigitText.SplitAt(rest.value, ':') == (IntegerText(activity.chainId), Some(ToLower(token)))
    ensures forall other: Chains.ChainFamily ::
              Chains.FamilyText(activity.chainFamily) == Chains.FamilyText(other) ==> activity.chainFamily == other
  {
    var family, chain := Chains.FamilyText(activity.chainFamily), IntegerText(activity.chainId);
    var address := ToLower(token);
    IntegerTextIsPlain(activity.chainId);
    assert InventoryKeyOf(activity, token) == family + ":" + (chain + ":" + address);
    DigitText.SplitAtJoin(family, ':', chain + ":" + address);
    DigitText.SplitAtJoin(chain, ':', address);
    assert "eip155"[0] != "solana"[0];
  }

  lemma IntegerTextIsPlain(n: int)
    ensures ':' !in IntegerText(n)
  {
    assert forall i | 0 <= i < |DigitText.TextOf(Magnitude(n))| :: DigitText.IsDigit(DigitText.TextOf(Magnitude(n))[i]);
  }

  lemma TextStartsWithDigit(n: nat)
    ensures DigitText.TextOf(n) != "" && DigitText.TextOf(n)[0] != '-'
  {
    DigitText.TextOfValue(n);
    assert DigitText.IsDigit(DigitText.TextOf(n)[0]);
  }

  lemma IntegerTextIsInjective(m: int, n: int)
    ensures IntegerText(m) == IntegerText(n) <==> m == n
  {
    hide DigitText.TextOf, DigitText.ValueOf;
    var s, t := DigitText.TextOf(Magnitude(m)), DigitText.TextOf(Magnitude(n));
    TextStartsWithDigit(Magnitude(m));
    TextStartsWithDigit(Magnitude(n));
    DigitText.TextOfValue(Magnitude(m));
    DigitText.TextOfValue(Magnitude(n));
    if IntegerText(m) == IntegerText(n) {
      assert ("-" + s)[1..] == s && ("-" + t)[1..] == t && "" + s == s && "" + t == t;
      assert ("-" + s)[0] == '-' && ("-" + t)[0] == '-';
      assert s == t;
    }
  }

  // The order of a history

  /** The history is the activities, oldest first, and those of one moment by their ids. */
  lemma HistoryIsOldestFirst(activities: seq<AgentActivity>)
    ensures var history := Chronological(activities);
            && multiset(history) == multiset(activities)
            && forall i, j | 0 <= i < j < |history| ::
                 || history[i].observedAtSeconds < history[j].observedAtSeconds
                 || (history[i].observedAtSeconds == history[j].observedAtSeconds
                     && history[i].activityId <= history[j].activityId)
  {
    SortInvertsNothing(ObservedBefore, activities);
  }

  // One trade

  /** The proceeds of what was matched: the floor of its share of the proceeds, toward zero. */
  ghost predicate IsShare(proceeds: int, usd: int, matched: int, quantity: int) {
    if usd >= 0 then proceeds * quantity <= usd * matched < proceeds * quantity + quantity
    else -proceeds * quantity <= -usd * matched < -proceeds * quantity + quantity
  }

  /** What a trade leaves: what was held of the token it disposes of loses what was asked for, and then what it
      acquired is added, at the price paid. */
  lemma TradeIsSettled(trades: seq<SwapTrade>, trade: SwapTrade, key: string)
    ensures var before, after := Run(trades), Run(trades + [trade]);
            var lots := Held(before.book, key);
            Held(after.book, key)
            == (if key == trade.disposal.inventoryKey then Consume(lots, trade.disposal.quantity).1 else lots)
               + if key == trade.acquisition.inventoryKey && trade.acquisition.quantity > 0
                 then [Lot(trade.acquisition.quantity, trade.acquisition.usd)] else []
  {
    hide Step, Held;
    RunNext(trades, trade);
    HeldAfterStep(Run(trades), trade, key);
  }

  /** And what it realizes: the share of its proceeds that met inventory, less the cost of that; nothing when nothing
      was asked for or held. */
  lemma TradeIsRealized(trades: seq<SwapTrade>, trade: SwapTrade)
    ensures var before, after := Run(trades), Run(trades + [trade]);
            var lots, asked := Held(before.book, trade.disposal.inventoryKey), trade.disposal.quantity;
            var c := Consume(lots, asked).0;
            && (asked <= 0 || lots == [] ==> after.realized == before.realized)
            && (asked > 0 && lots != [] ==>
                  IsShare(after.realized - before.realized + c.matchedCost, trade.disposal.usd, c.matchedQuantity,
                          asked))
  {
    hide Acquire, Held, Consume, IsShare;
    RunNext(trades, trade);
    var lots, asked := Held(Run(trades).book, trade.disposal.inventoryKey), trade.disposal.quantity;
    LedgerConserves(trades, trade.disposal.inventoryKey);
    ConsumeTakesOldest(lots, asked);
    TotalQuantityPositive(lots);
    if asked > 0 && lots != [] {
      ShareIsFloored(trade.disposal.usd, Consume(lots, asked).0.matchedQuantity, asked);
    }
  }

  lemma ShareIsFloored(usd: int, matched: int, quantity: int)
    requires 0 <= matched && quantity > 0
    ensures IsShare(Decimal.ProportionOfDecimal(usd, matched, quantity), usd, matched, quantity)
  {
    if usd >= 0 {
      assert usd * matched >= 0;
      TruncatedIsFloor(usd * matched, quantity);
    } else {
      assert -usd * matched >= 0 && -(usd * matched) == -usd * matched;
      TruncatedIsFloor(-usd * matched, quantity);
      TruncatedIsOdd(-usd * matched, quantity);
    }
  }

  // A whole history

  /** What is sold again, whole: the second swap spends as much of a token as the first received. */
  ghost predicate IsRoundTrip(buy: AgentActivity, sell: AgentActivity) {
    && buy.kind == "swap" && buy.pricingState.ServerPriced? && IsWellFormed(buy.spent) && IsWellFormed(buy.received)
    && sell.kind == "swap" && sell.pricingState.ServerPriced? && IsWellFormed(sell.spent) && IsWellFormed(sell.received)
    && (buy.observedAtSeconds < sell.observedAtSeconds
        || (buy.observedAtSeconds == sell.observedAtSeconds && buy.activityId < sell.activityId))
    && InventoryKeyOf(buy, buy.received.tokenAddress.value) == InventoryKeyOf(sell, sell.spent.tokenAddress.value)
    && QuantityOf(buy.received) == QuantityOf(sell.spent) && QuantityOf(buy.received).value > 0
  }

  lemma NoTrades(activities: seq<AgentActivity>)
    ensures TradesOf(activities[..0]) == Ok([])
  {
  }

  lemma TwoTrades(buy: AgentActivity, sell: AgentActivity)
    requires SwapTradeOf(buy).Ok? && SwapTradeOf(buy).value.Some?
    requires SwapTradeOf(sell).Ok? && SwapTradeOf(sell).value.Some?
    ensures TradesOf([buy, sell]) == Ok([SwapTradeOf(buy).value.value, SwapTradeOf(sell).value.value])
  {
    hide SwapTradeOf, TradesOf;
    var both := [buy, sell];
    NoTrades(both);
    TradesOfNext(both, 0);
    TradesOfNext(both, 1);
    var first, second := SwapTradeOf(buy).value.value, SwapTradeOf(sell).value.value;
    var none: seq<SwapTrade> := [];
    assert both[..2] == both && none + [first] == [first] && [first] + [second] == [first, second];
  }

  lemma TwoInOrder(buy: AgentActivity, sell: AgentActivity)
    requires ObservedBefore(buy, sell)
    ensures Chronological([buy, sell]) == [buy, sell] == Chronological([sell, buy])
  {
    assert !ObservedBefore(sell, buy);
    assert [buy, sell][1..] == [sell] && [sell, buy][1..] == [buy] && [sell][1..] == [] && [buy][1..] == [];
    assert Sort(ObservedBefore, [sell]) == [sell] && Sort(ObservedBefore, [buy]) == [buy];
    assert Insert(ObservedBefore, buy, [sell]) == [buy] + [sell];
    assert Insert(ObservedBefore, sell, [buy]) == [buy] + Insert(ObservedBefore, sell, []);
  }

  lemma NothingIsHeld(key: string)
    ensures Held(Run([]).book, key) == [] && Run([]).realized == 0
    ensures Run([]).closed == Run([]).winning == Run([]).unmatched == 0
  {
  }

  lemma SoleLotIsTaken(lot: Lot)
    requires lot.quantity > 0
    ensures Consume([lot], lot.quantity) == (Consumption(lot.cost, lot.quantity, 1), [])
    ensures TotalQuantity([lot]) == lot.quantity && Consume([], 0).1 == [] && TotalQuantity([]) == 0
  {
    assert [lot][1..] == [] && Consume([], 0) == (NOTHING, []);
  }

  lemma NothingIsTaken(quantity: int)
    ensures Consume([], quantity).1 == []
  {
  }

  lemma RoundTripRuns(first: SwapTrade, second: SwapTrade)
    requires first.acquisition.inventoryKey == second.disposal.inventoryKey
    requires first.acquisition.quantity == second.disposal.quantity > 0
    ensures var gain := second.disposal.usd - first.acquisition.usd;
            var s := Run([first, second]);
            && s.realized == gain && s.closed == 1 && s.winning == (if gain > 0 then 1 else 0)
            && s.unmatched == if first.disposal.quantity > 0 then 1 else 0
  {
    hide Run, Consume, IsShare, TotalQuantity, Held;
    var none: seq<SwapTrade> := [];
    assert none + [first] == [first] && [first] + [second] == [first, second];
    var key, lot := second.disposal.inventoryKey, Lot(first.acquisition.quantity, first.acquisition.usd);
    NothingIsHeld(key);
    NothingIsHeld(first.disposal.inventoryKey);
    NothingIsTaken(first.disposal.quantity);
    SoleLotIsTaken(lot);
    TradeIsSettled(none, first, key);
    TradeIsRealized(none, first);
    CountersMeaning(none, first);
    assert Held(Run([first]).book, key) == [lot];
    TradeIsRealized([first], second);
    WholeShare(Run([first, second]).realized - Run([first]).realized + lot.cost, second.disposal.usd, lot.quantity);
    CountersMeaning([first], second);
  }

  lemma WholeShare(proceeds: int, usd: int, quantity: int)
    requires quantity > 0 && IsShare(proceeds, usd, quantity, quantity)
    ensures proceeds == usd
  {
    if usd >= 0 {
      SmallMultiple(usd - proceeds, quantity);
    } else {
      SmallMultiple(proceeds - usd, quantity);
    }
  }

  /** A round trip realizes what the sale brought less what the purchase cost, closes once, and wins when that is more
      than nothing, in whatever order its two activities arrive; what the purchase paid with was never bought. */
  lemma RoundTripPays(buy: AgentActivity, sell: AgentActivity, activities: seq<AgentActivity>)
    requires IsRoundTrip(buy, sell) && (activities == [buy, sell] || activities == [sell, buy])
    ensures var gain := UsdOf(sell.spent).value - UsdOf(buy.received).value;
            RealizedOf(activities)
            == Ok(RealizedResult(Decimal.DecimalToText(gain), 1, if gain > 0 then 1 else 0,
                                 if QuantityOf(buy.spent).value > 0 then 1 else 0))
  {
    hide SwapTradeOf, InventoryKeyOf, Run, TradesOf, Chronological, QuantityOf, UsdOf, Decimal.DecimalToText;
    TwoInOrder(buy, sell);
    SwapSpendsAndReceives(buy);
    SwapSpendsAndReceives(sell);
    TwoTrades(buy, sell);
    RoundTripRuns(SwapTradeOf(buy).value.value, SwapTradeOf(sell).value.value);
  }
}
