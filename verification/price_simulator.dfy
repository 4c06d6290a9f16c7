/**
 * The simulated KRWQ-FRAX market: two prices that drift on a timer, a
 * capped history of trades, and a running profit total credited when each
 * trade's delayed settlement fires. Every `Math.random()` draw is a
 * parameter `r` with `0 <= r < 1`; every `Date.now()` is a parameter `now`.
 */
module PriceSimulator {
  import opened Wrappers
  import opened Logs
  import opened JsText

  const InitialKrwqPrice: real := 0.0012
  const InitialFraxPrice: real := 0.9998
  /** FRAX is clamped into this band after every drift. */
  const FraxFloor: real := 0.995
  const FraxCeiling: real := 1.005
  /** Capacity of the trade history. */
  const MaxTrades: nat := 50
  /** How many trades the statistics show. */
  const RecentTradesShown: nat := 10
  const Pair: string := "KRWQ-FRAX"
  /** Position size at 100% confidence, in USD. */
  const BaseAmount: real := 1000.0
  /** Spreads (in percent) above this count as an opportunity. */
  const OpportunityThreshold: real := 0.5
  /** Gates of `simulateIntelligenceTrade`. */
  const MinConfidence: int := 50
  const MinQuality: int := 30

  /** A value `Math.random()` can return. */
  predicate IsRandom(r: real)
  {
    0.0 <= r < 1.0
  }

  datatype Side = Buy | Sell
  datatype Status = Pending | Executed | Failed

  /** A trade object; the settlement timer holds a reference to it and
      flips its status in place. */
  class Trade {
    const id: string
    const side: Side
    const pair: string
    const amount: real
    const price: real
    const timestamp: int
    const profit: real
    var status: Status

    constructor (id: string, side: Side, amount: real, price: real, timestamp: int, profit: real)
      ensures this.id == id && this.side == side && this.pair == Pair
      ensures this.amount == amount && this.price == price
      ensures this.timestamp == timestamp && this.profit == profit
      ensures status == Pending
    {
      this.id := id;
      this.side := side;
      this.pair := Pair;
      this.amount := amount;
      this.price := price;
      this.timestamp := timestamp;
      this.profit := profit;
      status := Pending;
    }
  }

  /** KRWQ moves by at most half a percent either way per update. */
  function KrwqStep(price: real, r: real): (p: real)
    requires IsRandom(r)
    ensures price > 0.0 ==> 0.995 * price <= p < 1.005 * price
  {
    price * (1.0 + (r - 0.5) * 0.01)
  }

  function Max(a: real, b: real): real { if a >= b then a else b }
  function Min(a: real, b: real): real { if a <= b then a else b }

  /** FRAX moves by at most a hundredth of a percent, then is clamped into
      the band; inside the band the move is kept as is. */
  function FraxStep(price: real, r: real): (p: real)
    requires IsRandom(r)
    ensures FraxFloor <= p <= FraxCeiling
    ensures var moved := price * (1.0 + (r - 0.5) * 0.0002);
      FraxFloor <= moved <= FraxCeiling ==> p == moved
  {
    Max(FraxFloor, Min(FraxCeiling, price * (1.0 + (r - 0.5) * 0.0002)))
  }

  /** The simulated arbitrage spread, in percent. */
  function Spread(r: real): (s: real)
    requires IsRandom(r)
    ensures 0.3 <= s < 2.0
  {
    0.3 + r * 1.7
  }

  /** An opportunity is reported exactly when the draw exceeds 2/17, so
      15 draws in 17 report one. */
  lemma OpportunityIffDraw(r: real)
    requires IsRandom(r)
    ensures Spread(r) > OpportunityThreshold <==> r > 2.0 / 17.0
  {
    assert Spread(r) - OpportunityThreshold == 1.7 * (r - 2.0 / 17.0);
  }

  datatype Recommendation = BuyKrwqAt(price: real) | NoOpportunity
  datatype Arbitrage = Arbitrage(available: bool, profitPct: real, recommendation: Recommendation)

  /** `calculateArbitrageOpportunity` at a given KRWQ price and draw. */
  function ArbitrageAt(krwqPrice: real, r: real): (a: Arbitrage)
    requires IsRandom(r)
    ensures 0.3 <= a.profitPct < 2.0
    ensures a.profitPct == Spread(r)
    ensures a.available <==> a.profitPct > OpportunityThreshold
    ensures a.available <==> r > 2.0 / 17.0
    ensures a.available <==> a.recommendation == BuyKrwqAt(krwqPrice)
    ensures !a.available <==> a.recommendation == NoOpportunity
  {
    var spread := Spread(r);
    OpportunityIffDraw(r);
    Arbitrage(spread > OpportunityThreshold, spread,
              if spread > OpportunityThreshold then BuyKrwqAt(krwqPrice) else NoOpportunity)
  }

  /** Position size: the base amount scaled by confidence as a fraction. */
  function PositionSize(confidence: int): (size: real)
    ensures 0 <= confidence <= 100 ==> 0.0 <= size <= BaseAmount
    ensures confidence >= MinConfidence ==> size >= BaseAmount / 2.0
  {
    BaseAmount * (confidence as real / 100.0)
  }

  /** Expected profit: the position size times the spread as a fraction.
      A spread between 0.3% and 2% earns between 0.3% and 2% of the position. */
  function ExpectedProfit(size: real, spread: real): (profit: real)
    ensures size >= 0.0 && spread >= 0.0 ==> profit >= 0.0
    ensures size > 0.0 && 0.3 <= spread < 2.0 ==> 0.003 * size <= profit < 0.02 * size
  {
    var q := spread / 100.0;
    assert size >= 0.0 && spread >= 0.0 ==> size * q >= 0.0;
    assert size > 0.0 && 0.3 <= spread < 2.0 ==> size * (q - 0.003) >= 0.0 && size * (0.02 - q) > 0.0;
    size * q
  }

  /** A trade the intelligence gate lets through is worth at least $500 and
      is expected to earn between 0.3% and 2% of it, so it always counts as
      a winning trade. */
  lemma IntelligenceTradeSizing(confidence: int, r: real)
    requires confidence >= MinConfidence && IsRandom(r)
    ensures PositionSize(confidence) >= 500.0
    ensures PositionSize(confidence) == 10.0 * confidence as real
    ensures var size := PositionSize(confidence);
      0.003 * size <= ExpectedProfit(size, Spread(r)) < 0.02 * size
    ensures ExpectedProfit(PositionSize(confidence), Spread(r)) >= 1.5
  {
  }

  /** The trade `simulateIntelligenceTrade` opens: a KRWQ-FRAX buy at
      `price`, sized by `confidence`, expected to earn the spread of the
      draw `r`, and stamped with the clock reading `now`. */
  predicate IntelligenceTrade(t: Trade, confidence: int, price: real, r: real, now: nat)
    requires IsRandom(r)
  {
    && t.side == Buy && t.pair == Pair && t.price == price
    && t.id == "trade_" + DecimalString(now) && t.timestamp == now
    && t.amount == PositionSize(confidence)
    && t.profit == ExpectedProfit(t.amount, Spread(r))
  }

  /** Number of trades in `h` with status `st`. */
  function CountStatus(h: seq<Trade>, st: Status): (n: nat)
    reads h
    ensures n <= |h|
  {
    if h == [] then 0
    else CountStatus(h[..|h| - 1], st) + (if h[|h| - 1].status == st then 1 else 0)
  }

  /** Number of executed trades in `h` with a positive profit. */
  function CountWinning(h: seq<Trade>): (n: nat)
    reads h
    ensures n <= CountStatus(h, Executed)
  {
    if h == [] then 0
    else CountWinning(h[..|h| - 1]) + (if h[|h| - 1].status == Executed && h[|h| - 1].profit > 0.0 then 1 else 0)
  }

  /** Every trade has exactly one of the three statuses. */
  lemma {:induction false} StatusesPartition(h: seq<Trade>)
    ensures CountStatus(h, Pending) + CountStatus(h, Executed) + CountStatus(h, Failed) == |h|
  {
    if h != [] {
      StatusesPartition(h[..|h| - 1]);
    }
  }

  /** Total of the profits of `ts`. */
  function SumProfits(ts: seq<Trade>): (total: real)
    ensures (forall k :: 0 <= k < |ts| ==> ts[k].profit >= 0.0) ==> total >= 0.0
  {
    if ts == [] then 0.0 else SumProfits(ts[..|ts| - 1]) + ts[|ts| - 1].profit
  }

  datatype PriceData = PriceData(
    krwqPrice: real, fraxPrice: real, timestamp: int, volume24h: real, priceChange24h: real)

  datatype TradingStats = TradingStats(
    totalTrades: nat,
    executedTrades: nat,
    pendingTrades: nat,
    totalProfit: real,
    winRate: real,
    recentTrades: seq<Trade>)

  class Market {
    var krwqPrice: real
    var fraxPrice: real
    /** The newest trades, oldest first. */
    var history: seq<Trade>
    /** Trades whose settlement callback is scheduled and has not fired, in
        firing order (all use the same delay). */
    var timers: seq<Trade>
    var totalProfit: real
    /** Every trade whose settlement has fired, in firing order. */
    ghost var settled: seq<Trade>

    /** The profit total is the sum over settled trades, each credited once;
        a trade is pending exactly while its timer is scheduled; every trade
        in the history is pending or settled. */
    ghost predicate Valid()
      reads this, history, timers, settled
    {
      && krwqPrice > 0.0
      && FraxFloor <= fraxPrice <= FraxCeiling
      && |history| <= MaxTrades
      && (forall t :: t in timers ==> t.status == Pending)
      && (forall t :: t in settled ==> t.status == Executed)
      && (forall t :: t in history ==> t in timers || t in settled)
      && (forall i, j :: 0 <= i < j < |timers| ==> timers[i] != timers[j])
      && (forall i, j :: 0 <= i < j < |settled| ==> settled[i] != settled[j])
      && totalProfit == SumProfits(settled)
    }

    constructor ()
      ensures Valid()
      ensures krwqPrice == InitialKrwqPrice && fraxPrice == InitialFraxPrice
      ensures history == [] && timers == [] && settled == [] && totalProfit == 0.0
    {
      krwqPrice := InitialKrwqPrice;
      fraxPrice := InitialFraxPrice;
      history := [];
      timers := [];
      totalProfit := 0.0;
      settled := [];
    }

    /** `updatePrices`, the ten-second timer callback. */
    method UpdatePrices(r1: real, r2: real)
      requires Valid() && IsRandom(r1) && IsRandom(r2)
      modifies this
      ensures Valid()
      ensures krwqPrice == KrwqStep(old(krwqPrice), r1)
      ensures fraxPrice == FraxStep(old(fraxPrice), r2)
      ensures history == old(history) && timers == old(timers)
      ensures totalProfit == old(totalProfit) && settled == old(settled)
    {
      var krwqChange := (r1 - 0.5) * 0.01;
      krwqPrice := krwqPrice * (1.0 + krwqChange);
      var fraxChange := (r2 - 0.5) * 0.0002;
      fraxPrice := Max(FraxFloor, Min(FraxCeiling, fraxPrice * (1.0 + fraxChange)));
    }

    /** `getCurrentPrices`: the current prices with a random 24-hour volume
        and price change. */
    function GetCurrentPrices(now: int, r1: real, r2: real): (d: PriceData)
      requires IsRandom(r1) && IsRandom(r2)
      reads this
      ensures d.krwqPrice == krwqPrice && d.fraxPrice == fraxPrice && d.timestamp == now
      ensures 1250000.0 <= d.volume24h < 1500000.0
      ensures -2.5 <= d.priceChange24h < 2.5
    {
      PriceData(krwqPrice, fraxPrice, now, 1250000.0 + r1 * 250000.0, (r2 - 0.5) * 5.0)
    }

    /** `executeTrade`: record a pending trade at the current price of the
        side's coin and schedule its settlement. */
    method ExecuteTrade(side: Side, amountUsd: real, expectedProfit: real, now: nat) returns (trade: Trade)
      requires Valid()
      modifies this
      ensures Valid() && fresh(trade)
      ensures trade.id == "trade_" + DecimalString(now) && trade.timestamp == now
      ensures trade.side == side && trade.pair == Pair && trade.status == Pending
      ensures trade.amount == amountUsd && trade.profit == expectedProfit
      ensures trade.price == if side == Buy then krwqPrice else fraxPrice
      ensures history == Push(old(history), trade, MaxTrades)
      ensures timers == old(timers) + [trade]
      ensures krwqPrice == old(krwqPrice) && fraxPrice == old(fraxPrice)
      ensures totalProfit == old(totalProfit) && settled == old(settled)
    {
      trade := new Trade("trade_" + DecimalString(now), side, amountUsd,
                         if side == Buy then krwqPrice else fraxPrice, now, expectedProfit);
      timers := timers + [trade];
      history := history + [trade];
      if |history| > MaxTrades {
        history := history[1..];
      }
    }

    /** The settlement callback of the oldest scheduled trade: mark it
        executed and credit its profit, whether or not the history still
        holds it. */
    method SettleNext()
      requires Valid() && timers != []
      modifies this, timers[0]
      ensures Valid()
      ensures old(timers[0]).status == Executed
      ensures totalProfit == old(totalProfit) + old(timers[0]).profit
      ensures timers == old(timers)[1..] && settled == old(settled) + [old(timers[0])]
      ensures history == old(history)
      ensures krwqPrice == old(krwqPrice) && fraxPrice == old(fraxPrice)
    {
      var trade := timers[0];
      assert trade !in settled;
      trade.status := Executed;
      totalProfit := totalProfit + trade.profit;
      timers := timers[1..];
      settled := settled + [trade];
      assert settled[..|settled| - 1] == old(settled);
    }

    /** `calculateArbitrageOpportunity`. */
    function CalculateArbitrage(r: real): (a: Arbitrage)
      requires IsRandom(r)
      reads this
      ensures a == ArbitrageAt(krwqPrice, r)
      ensures 0.3 <= a.profitPct < 2.0
      ensures a.available <==> a.recommendation == BuyKrwqAt(krwqPrice)
      ensures a.available <==> a.profitPct > OpportunityThreshold
    {
      ArbitrageAt(krwqPrice, r)
    }

    /** `getTradingStats`. */
    function GetTradingStats(): (s: TradingStats)
      reads this, history
      ensures s.totalTrades == |history|
      ensures s.executedTrades == CountStatus(history, Executed)
      ensures s.pendingTrades == CountStatus(history, Pending)
      ensures s.executedTrades + s.pendingTrades <= s.totalTrades
      ensures s.totalProfit == totalProfit
      ensures s.winRate == WinRate(CountWinning(history), s.executedTrades)
      ensures 0.0 <= s.winRate <= 100.0
      ensures |s.recentTrades| == if |history| < RecentTradesShown then |history| else RecentTradesShown
      ensures forall k :: 0 <= k < |s.recentTrades| ==> s.recentTrades[k] == history[|history| - 1 - k]
    {
      var executed := CountStatus(history, Executed);
      var winning := CountWinning(history);
      StatusesPartition(history);
      TradingStats(
        |history|, executed, CountStatus(history, Pending), totalProfit,
        WinRate(winning, executed),
        Recent(history, RecentTradesShown))
    }

    /** `simulateIntelligenceTrade`: a buy sized by confidence, expected to
        earn the current spread, when the tip is verified with confidence
        at least 50 and quality at least 30; nothing otherwise. */
    method SimulateIntelligenceTrade(verified: bool, confidence: int, tipQuality: int, r: real, now: nat)
      returns (trade: Option<Trade>)
      requires Valid() && IsRandom(r)
      modifies this
      ensures Valid()
      ensures trade.Some? <==> verified && confidence >= MinConfidence && tipQuality >= MinQuality
      ensures trade.None? ==> history == old(history) && timers == old(timers)
      ensures totalProfit == old(totalProfit) && settled == old(settled)
      ensures trade.Some? ==>
        var t := trade.value;
        && fresh(t) && t.status == Pending
        && IntelligenceTrade(t, confidence, old(krwqPrice), r, now)
        && t.profit > 0.0
        && history == Push(old(history), t, MaxTrades)
        && timers == old(timers) + [t]
      ensures krwqPrice == old(krwqPrice) && fraxPrice == old(fraxPrice)
    {
      if !verified || confidence < MinConfidence || tipQuality < MinQuality {
        return None;
      }
      var positionSize := BaseAmount * (confidence as real / 100.0);
      var arb := CalculateArbitrage(r);
      var expectedProfit := positionSize * (arb.profitPct / 100.0);
      IntelligenceTradeSizing(confidence, r);
      var t := ExecuteTrade(Buy, positionSize, expectedProfit, now);
      trade := Some(t);
    }
  }

  /** `winning / executed * 100`, or 0 when nothing has executed. */
  function WinRate(winning: nat, executed: nat): (w: real)
    requires winning <= executed
    ensures 0.0 <= w <= 100.0
    ensures executed == 0 ==> w == 0.0
    ensures executed > 0 ==> w * executed as real == winning as real * 100.0
    ensures winning == executed > 0 ==> w == 100.0
  {
    if executed > 0 then
      var q := winning as real / executed as real;
      assert q * executed as real == winning as real;
      assert q <= 1.0;
      q * 100.0
    else 0.0
  }
}
