/**
 * The HTTP handlers around the ledger: `POST /api/submit-tip`, which runs
 * the agent pipeline on a tip, reads the fields of its reply, records the
 * tip and possibly opens a trade; and the `limit` query parameter of
 * `GET /api/leaderboard`.
 *
 * The pipeline (`agentRunner.ask`) is outside the model: its outcome is a
 * parameter, either the reply text or the error it threw. The clock is a
 * parameter too, in milliseconds: `now` is the reading the tip id takes,
 * `tradeNow` the later one the trade's id and timestamp take. So is the
 * random draw the trade simulator takes.
 */
module Server {
  import opened Wrappers
  import JsText
  import TipStorage
  import PriceSimulator
  import Extraction
  import Logs

  /** What `agentRunner.ask(tip)` gave: a reply, or a thrown error. */
  datatype PipelineReply = Answer(text: string) | Failure(message: string)

  /** The handler's answer, without the `timestamp` it adds to a success. */
  datatype Reply =
    | BadRequest                               // 400, "Tip must be a non-empty string"
    | ServerError(message: string)             // 500, "Internal server error"
    | Accepted(response: string, userId: string)  // 200, `success: true`

  const Anonymous: string := "anonymous"
  /** How many characters of a tip the ledger keeps. */
  const TipContentLength: nat := 100
  /** The handler's own confidence gate in front of the trade simulator. */
  const TradeConfidence: int := 50
  const DefaultLeaderboardLimit: int := 10

  /** `tip` passes `!tip || typeof tip !== "string"`: present, a string and
      not empty. A missing or non-string body field is `None`. */
  predicate IsValidTip(tip: Option<string>): (b: bool)
    ensures b ==> tip.Some? && TipContent(tip.value) != []
  {
    tip.Some? && tip.value != []
  }

  /** `userId || "anonymous"`: a missing or empty id becomes "anonymous". */
  function EffectiveUserId(userId: Option<string>): (u: string)
    ensures u != []
    ensures userId.Some? && userId.value != [] ==> u == userId.value
    ensures userId.None? || userId.value == [] ==> u == Anonymous
  {
    if userId.Some? && userId.value != [] then userId.value else Anonymous
  }

  /** `tip.substring(0, 100)`. */
  function TipContent(tip: string): (c: string)
    ensures c <= tip
    ensures |c| == if |tip| < TipContentLength then |tip| else TipContentLength
  {
    if |tip| < TipContentLength then tip else tip[..TipContentLength]
  }

  /** `tip_${Date.now()}`. */
  function TipId(now: nat): (id: string)
    ensures |id| > 4 && id[..4] == "tip_"
    ensures JsText.AllDigits(id[4..])
  {
    var digits := JsText.DecimalString(now);
    assert ("tip_" + digits)[4..] == digits;
    "tip_" + digits
  }

  /** Tips recorded at different milliseconds get different ids. */
  lemma TipIdsDistinct(m: nat, n: nat)
    requires m != n
    ensures TipId(m) != TipId(n)
  {
    if TipId(m) == TipId(n) {
      assert TipId(m)[4..] == JsText.DecimalString(m);
      assert TipId(n)[4..] == JsText.DecimalString(n);
      JsText.DecimalStringInjective(m, n);
    }
  }

  /** The record `saveTip` receives for a tip whose reply read as `e`. */
  function NewRecord(tip: string, userId: Option<string>, now: nat, e: Extraction.Evaluation): (t: TipStorage.TipRecord)
    ensures t.id == TipId(now) && t.timestamp == now
    ensures t.userId == EffectiveUserId(userId) && t.tipContent == TipContent(tip)
    ensures t.verified == e.verified && t.confidence == e.confidence && t.tipQualityScore == e.quality
    ensures t.strategy == e.strategy && t.riskLevel == e.riskLevel && t.commissionPct == e.commissionPct
  {
    TipStorage.TipRecord(TipId(now), EffectiveUserId(userId), TipContent(tip), now,
                         e.verified, e.confidence, e.strategy, e.riskLevel, e.commissionPct, e.quality)
  }

  /** Both gates a reply must pass to open a trade: the handler's
      (`verified && confidence >= 50`) and the simulator's (quality at
      least 30 besides). */
  predicate OpensTrade(e: Extraction.Evaluation): (b: bool)
    // the handler's own gate adds nothing to the simulator's
    ensures b <==> e.verified && e.confidence >= PriceSimulator.MinConfidence && e.quality >= PriceSimulator.MinQuality
  {
    && e.verified && e.confidence >= TradeConfidence
    && e.confidence >= PriceSimulator.MinConfidence && e.quality >= PriceSimulator.MinQuality
  }

  /** `POST /api/submit-tip`. A bad tip is refused with nothing recorded; a
      pipeline error becomes a 500 with nothing recorded; otherwise the
      reply's fields are read, the tip is pushed on the ledger, and a trade
      is opened exactly when the reply passes both gates. */
  method SubmitTip(ledger: TipStorage.TipLedger, market: PriceSimulator.Market,
                   tip: Option<string>, userId: Option<string>, reply: PipelineReply,
                   now: nat, tradeNow: nat, r: real)
    returns (out: Reply, trade: Option<PriceSimulator.Trade>)
    requires ledger.Valid() && market.Valid() && PriceSimulator.IsRandom(r)
    modifies ledger, market
    ensures ledger.Valid() && market.Valid()
    ensures !IsValidTip(tip) ==> out == BadRequest
    ensures IsValidTip(tip) && reply.Failure? ==> out == ServerError(reply.message)
    ensures !IsValidTip(tip) || reply.Failure? ==> ledger.tips == old(ledger.tips) && trade.None?
    ensures IsValidTip(tip) && reply.Answer? ==>
      var e := Extraction.Extract(reply.text);
      && out == Accepted(reply.text, EffectiveUserId(userId))
      && ledger.tips == Logs.Push(old(ledger.tips), NewRecord(tip.value, userId, now, e), TipStorage.MaxTips)
      && (trade.Some? <==> OpensTrade(e))
    ensures market.totalProfit == old(market.totalProfit) && market.settled == old(market.settled)
    ensures trade.None? ==> market.history == old(market.history) && market.timers == old(market.timers)
    ensures trade.Some? ==>
      && fresh(trade.value) && trade.value.status == PriceSimulator.Pending
      && reply.Answer?
      && PriceSimulator.IntelligenceTrade(trade.value, Extraction.Extract(reply.text).confidence,
                                          old(market.krwqPrice), r, tradeNow)
      && market.history == Logs.Push(old(market.history), trade.value, PriceSimulator.MaxTrades)
      && market.timers == old(market.timers) + [trade.value]
    ensures market.krwqPrice == old(market.krwqPrice) && market.fraxPrice == old(market.fraxPrice)
  {
    if !IsValidTip(tip) {
      return BadRequest, None;
    }
    match reply
    case Failure(message) =>
      out, trade := ServerError(message), None;
    case Answer(text) =>
      trade := RecordTip(ledger, market, tip.value, userId, Extraction.Extract(text), now, tradeNow, r);
      out := Accepted(text, EffectiveUserId(userId));
  }

  /** The handler once the reply has been read as `e`: `saveTip` with the
      record built from `e`, then the trade gate. */
  method RecordTip(ledger: TipStorage.TipLedger, market: PriceSimulator.Market,
                   tip: string, userId: Option<string>, e: Extraction.Evaluation,
                   now: nat, tradeNow: nat, r: real)
    returns (trade: Option<PriceSimulator.Trade>)
    requires ledger.Valid() && market.Valid() && PriceSimulator.IsRandom(r)
    modifies ledger, market
    ensures ledger.Valid() && market.Valid()
    ensures ledger.tips == Logs.Push(old(ledger.tips), NewRecord(tip, userId, now, e), TipStorage.MaxTips)
    ensures trade.Some? <==> OpensTrade(e)
    ensures market.totalProfit == old(market.totalProfit) && market.settled == old(market.settled)
    ensures trade.None? ==> market.history == old(market.history) && market.timers == old(market.timers)
    ensures trade.Some? ==>
      && fresh(trade.value) && trade.value.status == PriceSimulator.Pending
      && PriceSimulator.IntelligenceTrade(trade.value, e.confidence, old(market.krwqPrice), r, tradeNow)
      && market.history == Logs.Push(old(market.history), trade.value, PriceSimulator.MaxTrades)
      && market.timers == old(market.timers) + [trade.value]
    ensures market.krwqPrice == old(market.krwqPrice) && market.fraxPrice == old(market.fraxPrice)
  {
    ledger.SaveTip(NewRecord(tip, userId, now, e));
    trade := TradeOnTip(market, e, tradeNow, r);
  }

  /** The handler's gate `verified && confidence >= 50` in front of
      `simulateIntelligenceTrade`, which applies its own gates. */
  method TradeOnTip(market: PriceSimulator.Market, e: Extraction.Evaluation, now: nat, r: real)
    returns (trade: Option<PriceSimulator.Trade>)
    requires market.Valid() && PriceSimulator.IsRandom(r)
    modifies market
    ensures market.Valid()
    ensures trade.Some? <==> OpensTrade(e)
    ensures market.totalProfit == old(market.totalProfit) && market.settled == old(market.settled)
    ensures trade.None? ==> market.history == old(market.history) && market.timers == old(market.timers)
    ensures trade.Some? ==>
      && fresh(trade.value) && trade.value.status == PriceSimulator.Pending
      && PriceSimulator.IntelligenceTrade(trade.value, e.confidence, old(market.krwqPrice), r, now)
      && market.history == Logs.Push(old(market.history), trade.value, PriceSimulator.MaxTrades)
      && market.timers == old(market.timers) + [trade.value]
    ensures market.krwqPrice == old(market.krwqPrice) && market.fraxPrice == old(market.fraxPrice)
  {
    trade := None;
    if e.verified && e.confidence >= TradeConfidence {
      trade := market.SimulateIntelligenceTrade(e.verified, e.confidence, e.quality, r, now);
    }
  }

  /** A reply in which `"verified": true|false` never occurs cannot open a
      trade, whatever else it says. */
  lemma TradeNeedsVerifiedFlag(text: string)
    requires OpensTrade(Extraction.Extract(text))
    ensures exists j :: 0 <= j <= |text| && Extraction.MatchesAt(text, Extraction.VerifiedKey, Extraction.TrueOrFalse, j)
  {
    if forall j :: 0 <= j <= |text| ==> !Extraction.MatchesAt(text, Extraction.VerifiedKey, Extraction.TrueOrFalse, j) {
      Extraction.VerifiedFalseWithoutFlag(text);
    }
  }

  /** A reply without a double quote (plain prose) is recorded with all the
      defaults and opens no trade. */
  lemma PlainReplyRecordsDefaults(tip: string, userId: Option<string>, now: nat, text: string)
    requires forall k :: 0 <= k < |text| ==> text[k] != '"'
    ensures var t := NewRecord(tip, userId, now, Extraction.Extract(text));
      && !t.verified && t.confidence == 0 && t.tipQualityScore == 0 && t.commissionPct == 0.0
      && t.strategy == Extraction.DefaultStrategy && t.riskLevel == Extraction.DefaultRisk
    ensures !OpensTrade(Extraction.Extract(text))
  {
    Extraction.DefaultsWithoutQuotes(text);
  }

  /** A verified reply that gives no quality score is scored at its
      confidence, so the confidence gate alone decides the trade. */
  lemma DefaultQualityFollowsConfidence(text: string)
    requires Extraction.Verified(text)
    requires Extraction.FirstGroup(text, Extraction.QualityKey, Extraction.Digits).None?
    ensures OpensTrade(Extraction.Extract(text)) <==> Extraction.Confidence(text) >= TradeConfidence
  {
  }

  /** `parseInt(req.query.limit) || 10`: NaN (no digits, or no parameter)
      and 0 both fall back to 10; any other value, negative ones included,
      is passed on to `getLeaderboard`. */
  function LeaderboardLimit(query: Option<string>): (n: int)
    ensures n != 0
    ensures query.None? ==> n == DefaultLeaderboardLimit
    ensures query.Some? && JsText.ParseInt(query.value) == None ==> n == DefaultLeaderboardLimit
    ensures query.Some? && JsText.ParseInt(query.value).Some? ==>
      n == if JsText.ParseInt(query.value).value == 0 then DefaultLeaderboardLimit else JsText.ParseInt(query.value).value
    ensures query.Some? && query.value != [] && JsText.AllDigits(query.value) && JsText.DecimalValue(query.value) > 0 ==>
      n == JsText.DecimalValue(query.value)
  {
    if query.None? then DefaultLeaderboardLimit
    else
      match JsText.ParseInt(query.value)
      case Some(v) => if v == 0 then DefaultLeaderboardLimit else v
      case None => DefaultLeaderboardLimit
  }

  /** `GET /api/leaderboard`. */
  method LeaderboardRequest(ledger: TipStorage.TipLedger, query: Option<string>) returns (board: seq<TipStorage.UserSummary>)
    ensures board == TipStorage.Leaderboard(ledger.tips, LeaderboardLimit(query))
  {
    board := ledger.GetLeaderboard(LeaderboardLimit(query));
  }

  /** Without a `limit` parameter the leaderboard shows at most ten users,
      and exactly ten when more than ten users have tips. */
  lemma DefaultLeaderboardShowsTen(s: seq<TipStorage.TipRecord>)
    ensures |TipStorage.Leaderboard(s, LeaderboardLimit(None))| ==
      if |TipStorage.Users(s)| < 10 then |TipStorage.Users(s)| else 10
  {
  }
}
