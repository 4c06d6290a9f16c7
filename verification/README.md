# Tip intelligence backend: a Dafny model

This project models the core of a backend that takes trading tips. A user
submits a tip. An agent pipeline judges it and answers in free text. The
backend reads six fields out of that text with regular expressions:

- `verified`, `confidence`;
- `strategy`, `risk_level`;
- `commission_pct`, `tip_quality_score`.

It records the tip in an in-memory ledger capped at 100 records, and may open
a simulated KRWQ-FRAX trade.

The model covers:

- **Ledger** (`TipStorage`):
  - a class with the `saveTip` FIFO (push, then shift when over capacity);
  - the history filter;
  - the overall statistics;
  - the per-user leaderboard, whose `forEach` over a `Map` of counters is a method with a loop;
  - the user profile.
- **Market** (`PriceSimulator`):
  - a class holding the two prices, the capped trade history, the settlement timers and the realized-profit total;
  - trade objects whose status the settlement callback flips in place;
  - random draws and the clock as parameters.
- **Reading the reply** (`Extraction`): the six patterns `"key":\s*(capture)`.
  - For `verified` and `confidence` the global match is used and the last occurrence wins.
  - For the other four the first match is used.
  - `parseInt` and `parseFloat` are modelled over the captured text (`JsText` holds the JavaScript string behaviour this needs).
- **The handlers** (`Server`):
  - `POST /api/submit-tip`: validation, 400 and 500 replies, record construction, and the trade gate;
  - `parseInt(limit) || 10` of the leaderboard endpoint.
- **The keyword rule** (`IntelVerification`): `SUCCESS_KEYWORDS` and `shouldHardcodeSuccess`.

`StableSort` is the stable descending sort the leaderboard relies on, proved to be:

- sorted;
- a permutation;
- order-preserving among equal keys.

`Logs` holds the push-then-shift and `slice(-n).reverse()` idioms that the ledger and the trade history share.

Two points about the handler's answer and the stored commission:

- The handler answers with the pipeline's raw text.
- A `commission_pct` that `parseFloat` cannot read is `NaN` in the code (see Findings). The corrected model reads an unreadable `commission_pct` as 0, like a missing one, so the ledger's sums stay numbers.

## Model

| member | source | states |
|---|---|---|
| JsText.IsSpace | backend/src/index.ts:82 | space, tab, line feed and carriage return are whitespace; every whitespace character is a control character, the space, or beyond ASCII, so none is a digit, dot, quote or letter that starts a capture |
| JsText.Includes | backend/src/agents/intel-verification-agent.ts:26 | a word occurs only in a text at least as long; the empty word occurs in every text |
| JsText.Span | backend/src/index.ts:82 | a greedy run takes every leading character of the class and stops at the first that is not in it |
| JsText.DecimalString | backend/src/index.ts:104 | the printed form of a number is all digits with no leading zero |
| JsText.DecimalRoundTrip | backend/src/index.ts:104 | reading back a printed number gives the number |
| JsText.DecimalStringInjective | backend/src/index.ts:104 | different numbers print differently |
| JsText.LeadingZeroIgnored | backend/src/index.ts:93 | a leading zero does not change the value `parseInt` reads |
| JsText.DigitRun | backend/src/index.ts:187 | the digits `parseInt` reads are empty exactly when no digit follows the sign (or the `0x` prefix) |
| JsText.ParseInt | backend/src/index.ts:187 | NaN exactly when no digit follows; negative only after a minus sign; a plain digit string reads as its decimal value |
| Logs.Push | backend/src/utils/tipStorage.ts:17-23 | the log grows to its cap and no further; the new entry is last; what is kept is the newest suffix; at capacity the oldest entry goes |
| Logs.Reverse | backend/src/utils/priceSimulator.ts:133 | element k of the result is element n-1-k of the input |
| Logs.Recent | backend/src/utils/tipStorage.ts:118 | the newest n entries (all when fewer), newest first |
| StableSort.InsertPermutes | backend/src/utils/tipStorage.ts:89 | an insertion step adds exactly the inserted element |
| StableSort.InsertSorted | backend/src/utils/tipStorage.ts:89 | an insertion step keeps the sequence in descending key order |
| StableSort.SortDescending | backend/src/utils/tipStorage.ts:89 | the sort returns a permutation of its input in non-increasing key order |
| StableSort.InsertAfterEqualKeys | backend/src/utils/tipStorage.ts:89 | an inserted element lands after every element with the same key |
| StableSort.SortIsStable | backend/src/utils/tipStorage.ts:89 | elements with equal keys keep their original relative order |
| StableSort.InsertKeepsDistinct | backend/src/utils/tipStorage.ts:89 | inserting a new element into a duplicate-free sequence creates no duplicate |
| StableSort.SortKeepsDistinct | backend/src/utils/tipStorage.ts:89 | sorting creates no duplicate |
| StableSort.WithKeyPrefix | backend/src/utils/tipStorage.ts:89-90 | cutting a prefix keeps, for every key, a prefix of that key's elements |
| TipStorage.Count | backend/src/utils/tipStorage.ts:73-78 | a tip adds one to the user's tip count, and one to the verified count exactly when it is verified; verified stays at most total |
| TipStorage.Tallies | backend/src/utils/tipStorage.ts:61-79 | every user in the map has between 1 and n tips, and no more verified tips than tips |
| TipStorage.TallyOf | backend/src/utils/tipStorage.ts:61-79 | the counters count every tip once; verified tips are at most all tips, all of them when all are verified and none when none are |
| TipStorage.OfUser | backend/src/utils/tipStorage.ts:27 | the filter keeps only the user's records and is empty exactly when the user has none |
| TipStorage.OfUserMembers | backend/src/utils/tipStorage.ts:27 | a record is kept exactly when it is in the ledger and belongs to the user |
| TipStorage.OfUserConcat | backend/src/utils/tipStorage.ts:27 | the filter keeps insertion order across a concatenation |
| TipStorage.OfUserIdempotent | backend/src/utils/tipStorage.ts:27 | filtering twice by the same user changes nothing |
| TipStorage.Users | backend/src/utils/tipStorage.ts:61-71 | the map's keys are exactly the users with a tip, each once |
| TipStorage.UsersInFirstAppearanceOrder | backend/src/utils/tipStorage.ts:82 | the map iterates users in the order of their first tip |
| TipStorage.UsersStep | backend/src/utils/tipStorage.ts:62-71 | a tip adds its user at the end of the key order only when the user is new |
| TipStorage.TallyStep | backend/src/utils/tipStorage.ts:73-78 | a tip is counted in its own user's counters and in no one else's |
| TipStorage.TalliesAccumulate | backend/src/utils/tipStorage.ts:61-79 | after the loop the map holds exactly the users with tips, each with the counters of that user's own tips |
| TipStorage.TalliesStep | backend/src/utils/tipStorage.ts:62-78 | one iteration creates the user's counter when missing, counts the tip, and appends a new user to the key order |
| TipStorage.AbsorbTip | backend/src/utils/tipStorage.ts:61-79 | one iteration keeps "the counters are the per-user tallies" true |
| TipStorage.FinishAll | backend/src/utils/tipStorage.ts:82-88 | one finished row per user, in key order |
| TipStorage.FinishedAreSummaries | backend/src/utils/tipStorage.ts:82-88 | finishing the loop's counters gives each user's rollup, in first-appearance order |
| TipStorage.BoardOfCounters | backend/src/utils/tipStorage.ts:82-90 | averaging, sorting and cutting the loop's counters gives the leaderboard |
| TipStorage.Rate | backend/src/utils/tipStorage.ts:87 | 0 for no tips; otherwise the rate times the total equals verified times 100, and it lies between 0 and 100 |
| TipStorage.Mean | backend/src/utils/tipStorage.ts:85-86 | 0 for no tips; otherwise the mean times the count equals the sum |
| TipStorage.Finish | backend/src/utils/tipStorage.ts:83-88 | the success rate is within 0-100; with tips, rate and averages are the guarded divisions of the sums |
| TipStorage.InlineFiguresAreFinish | backend/src/utils/tipStorage.ts:105-117 | the profile's inline figures equal the leaderboard row of the same tips |
| TipStorage.Summarize | backend/src/utils/tipStorage.ts:99-117 | a user's rollup counts exactly that user's tips; it is non-empty exactly when the user has tips; its success rate is within 0-100 |
| TipStorage.Summaries | backend/src/utils/tipStorage.ts:82-88 | one rollup per user, in first-appearance order |
| TipStorage.SliceTo | backend/src/utils/tipStorage.ts:90 | `slice(0, end)` is a prefix of length min(end, n); a negative end counts from the back |
| TipStorage.Leaderboard | backend/src/utils/tipStorage.ts:50-93 | at most `limit` rows (every user when fewer), in non-increasing total commission |
| TipStorage.LeaderboardRows | backend/src/utils/tipStorage.ts:82-90 | every row is the rollup of a user who has tips |
| TipStorage.LeaderboardUsersDistinct | backend/src/utils/tipStorage.ts:52-90 | no user appears twice on the leaderboard |
| TipStorage.LeaderboardTiesKeepOrder | backend/src/utils/tipStorage.ts:89-90 | users tied on commission appear in order of their first tip |
| TipStorage.SummariesInFirstAppearanceOrder | backend/src/utils/tipStorage.ts:82 | the rollups are listed by each user's first tip |
| TipStorage.StatsOf | backend/src/utils/tipStorage.ts:32-45 | counts and commission sum; the rate is within 0-100 and the rate and mean undo their divisions; zeros for no tips |
| TipStorage.Profile | backend/src/utils/tipStorage.ts:105-118 | the inline figures are the user's rollup; the recent tips are the newest five, newest first |
| TipStorage.TipLedger.constructor | backend/src/utils/tipStorage.ts:15 | the ledger starts empty |
| TipStorage.TipLedger.SaveTip | backend/src/utils/tipStorage.ts:17-23 | the ledger becomes the capped push of the tip and stays within 100 records |
| TipStorage.TipLedger.GetTipHistory | backend/src/utils/tipStorage.ts:25-30 | a missing or empty id gives the whole ledger; otherwise exactly that user's records in order |
| TipStorage.TipLedger.GetStats | backend/src/utils/tipStorage.ts:32-45 | the ledger's size, verified count within it, a rate within 0-100, zeros for an empty ledger: the statistics of the whole ledger's counters |
| TipStorage.TipLedger.CountByUser | backend/src/utils/tipStorage.ts:61-79 | the loop builds the per-user counters and the first-appearance key order |
| TipStorage.TipLedger.GetLeaderboard | backend/src/utils/tipStorage.ts:50-93 | the result is the sorted, cut leaderboard of the ledger |
| TipStorage.TipLedger.GetUserProfile | backend/src/utils/tipStorage.ts:98-120 | null exactly when the user has no tip; otherwise the user's rollup and newest five tips, newest first |
| PriceSimulator.KrwqStep | backend/src/utils/priceSimulator.ts:38-39 | a positive KRWQ price stays within half a percent of where it was |
| PriceSimulator.FraxStep | backend/src/utils/priceSimulator.ts:42-43 | FRAX always ends within [0.995, 1.005] and keeps an in-band move unchanged |
| PriceSimulator.Spread | backend/src/utils/priceSimulator.ts:107 | the spread lies in [0.3, 2.0) |
| PriceSimulator.OpportunityIffDraw | backend/src/utils/priceSimulator.ts:107-110 | an opportunity is reported exactly when the draw exceeds 2/17 |
| PriceSimulator.ArbitrageAt | backend/src/utils/priceSimulator.ts:101-116 | the reported profit percentage is the drawn spread; `exists` is "spread above 0.5", and the recommendation is the buy at the current price exactly then |
| PriceSimulator.SumProfits | backend/src/utils/priceSimulator.ts:82-86 | the credited total of trades with non-negative profits is non-negative |
| PriceSimulator.PositionSize | backend/src/utils/priceSimulator.ts:153-155 | for a confidence within 0-100 the position is between $0 and $1000; at the 50 gate or above it is at least $500 |
| PriceSimulator.ExpectedProfit | backend/src/utils/priceSimulator.ts:158-159 | non-negative for a non-negative size and spread; a spread in [0.3, 2.0) earns between 0.3% and 2% of the position |
| PriceSimulator.IntelligenceTradeSizing | backend/src/utils/priceSimulator.ts:153-159 | a gated trade is at least $500 (ten dollars per confidence point) and is expected to earn 0.3% to 2% of it, at least $1.50 |
| PriceSimulator.CountStatus | backend/src/utils/priceSimulator.ts:122-128 | a status count never exceeds the history's length |
| PriceSimulator.CountWinning | backend/src/utils/priceSimulator.ts:123 | winning trades are among the executed ones |
| PriceSimulator.StatusesPartition | backend/src/utils/priceSimulator.ts:122-128 | pending, executed and failed trades add up to the history |
| PriceSimulator.WinRate | backend/src/utils/priceSimulator.ts:130-132 | within 0-100; 0 with nothing executed; the rate undoes its division; 100 when every executed trade won |
| PriceSimulator.Trade.constructor | backend/src/utils/priceSimulator.ts:70-79 | a new trade carries the given fields and the KRWQ-FRAX pair, and is pending |
| PriceSimulator.Market.constructor | backend/src/utils/priceSimulator.ts:26-31 | starting prices 0.0012 and 0.9998, with no trades and no profit |
| PriceSimulator.Market.UpdatePrices | backend/src/utils/priceSimulator.ts:36-44 | both prices take one drift step; nothing else changes; the invariants hold |
| PriceSimulator.Market.GetCurrentPrices | backend/src/utils/priceSimulator.ts:52-60 | the current prices, a volume in [1.25M, 1.5M) and a change in [-2.5, 2.5) |
| PriceSimulator.Market.ExecuteTrade | backend/src/utils/priceSimulator.ts:65-96 | a fresh pending trade at the side's price, id `trade_<now>`, pushed on the capped history with its settlement scheduled; the profit total is unchanged |
| PriceSimulator.Market.SettleNext | backend/src/utils/priceSimulator.ts:82-86 | the oldest scheduled trade becomes executed and its profit is credited once; the total stays the sum over settled trades |
| PriceSimulator.Market.CalculateArbitrage | backend/src/utils/priceSimulator.ts:101-116 | the opportunity at the current KRWQ price for the draw: a profit percentage in [0.3, 2.0), an opportunity exactly when it is above 0.5, with a recommendation to buy at the current KRWQ price |
| PriceSimulator.Market.GetTradingStats | backend/src/utils/priceSimulator.ts:121-135 | counts by status, the realized total, a win rate within 0-100, and the newest ten trades newest first |
| PriceSimulator.Market.SimulateIntelligenceTrade | backend/src/utils/priceSimulator.ts:140-166 | a trade exactly when verified, confidence >= 50 and quality >= 30: a fresh pending KRWQ-FRAX buy at the current KRWQ price, id `trade_<now>` and timestamp `now`, sized by confidence, with the spread's share of it as a positive expected profit, pushed on the capped history and scheduled; otherwise history and timers are unchanged; the realized profit and the settled trades never change |
| Extraction.CaptureHere | backend/src/index.ts:82-91 | an anchored capture takes a non-empty group within the text |
| Extraction.CaptureShape | backend/src/index.ts:82-91 | `(true\|false)` holds one of those words, `\d+` digits only, `[\d.]+` digits and dots, `"([^"]+)"` no quote; none begins with whitespace |
| Extraction.AfterKeyShape | backend/src/index.ts:82 | `\s*(cap)` is the longest whitespace run followed by the capture: backtracking gives nothing back |
| Extraction.MatchHere | backend/src/index.ts:82-91 | a match covers more than the key, with a non-empty group |
| Extraction.MatchHereKey | backend/src/index.ts:82-91 | a match is the whole key followed by `\s*(cap)` |
| Extraction.MatchShape | backend/src/index.ts:82-91 | a match is the key, whitespace only, then the capture, and ends with it |
| Extraction.MatchGroup | backend/src/index.ts:82-91 | what each capture group can hold, at any position of the reply |
| Extraction.FirstFrom | backend/src/index.ts:88-91 | the leftmost match at or after a position, and none before it |
| Extraction.GlobalMatches | backend/src/index.ts:82-85 | a global match collects only positions where the pattern matches |
| Extraction.GlobalNone | backend/src/index.ts:82-83 | the global match is null exactly when nothing matches |
| Extraction.NoMatchWithin | backend/src/index.ts:82-85 | matches of these patterns cannot overlap |
| Extraction.GlobalLastIsRightmost | backend/src/index.ts:83-86 | the last element of a global match is the rightmost match |
| Extraction.FirstDigitRun | backend/src/index.ts:86 | `(\d+)` finds a digit run, and nothing exactly when the text has no digit |
| Extraction.FlagTextAt | backend/src/index.ts:83 | the matched text contains `true` exactly when its group is `true` |
| Extraction.GlobalLastIs | backend/src/index.ts:83-86 | a match with none after it supplies the last text |
| Extraction.LastText | backend/src/index.ts:82-86 | no text exactly when nothing in the reply matches |
| Extraction.LastFlag | backend/src/index.ts:82-83 | the flag is true only when some match exists |
| Extraction.Verified | backend/src/index.ts:82-83 | `verified` is true only when the reply has a `"verified"` match |
| Extraction.LastNumber | backend/src/index.ts:84-93 | the number is non-zero only when some match exists |
| Extraction.Confidence | backend/src/index.ts:84-93 | `confidence` is non-zero only when the reply has a `"confidence"` digit match |
| Extraction.LastFlagReadsLast | backend/src/index.ts:82-83 | the flag is the group of the rightmost match |
| Extraction.VerifiedReadsLastFlag | backend/src/index.ts:82-83 | `verified` is true exactly when the rightmost `"verified"` match says `true` |
| Extraction.VerifiedFalseWithoutFlag | backend/src/index.ts:83 | with no `"verified"` match, `verified` is false |
| Extraction.NumberTextAt | backend/src/index.ts:86 | the first digit run in a matched text is its group |
| Extraction.LastNumberReadsLast | backend/src/index.ts:85-93 | the number is the decimal value of the rightmost match's digits |
| Extraction.ConfidenceReadsLastNumber | backend/src/index.ts:85-93 | `confidence` is the value of the rightmost `"confidence"` digits |
| Extraction.ConfidenceZeroWithoutNumber | backend/src/index.ts:93 | with no `"confidence"` match, `confidence` is 0 |
| Extraction.LastTextIgnoresPrefix | backend/src/index.ts:82-86 | text put in front of a reply that has a match leaves its last match's text as it was |
| Extraction.VerifiedLastOccurrenceWins | backend/src/index.ts:81-83 | an earlier stage's `verified` cannot override a later one |
| Extraction.ConfidenceLastOccurrenceWins | backend/src/index.ts:81-86 | an earlier stage's `confidence` cannot override a later one |
| Extraction.FirstGroup | backend/src/index.ts:88-91 | the first match's group, None exactly when nothing matches, with the capture's character class |
| Extraction.Strategy | backend/src/index.ts:88-110 | the first quoted strategy, else `NO_ACTION`; never empty, no quote inside |
| Extraction.RiskLevel | backend/src/index.ts:89-111 | the first quoted risk level, else `UNKNOWN`; never empty, no quote inside |
| Extraction.ParseFloatDigitsDots | backend/src/index.ts:112 | `parseFloat` of a digit-and-dot run is NaN exactly when it starts with a dot not followed by a digit; otherwise it is non-negative, and a digit string reads as its value (runs with a decimal point: `Extraction.ParseFloatDecimal`) |
| Extraction.ParseFloatDecimal | backend/src/index.ts:112 | `parseFloat` of digits `a`, a dot, digits `b` (not both empty), then nothing or another dot, is `a` plus the fraction `0.b`: "2.5" is 2.5, "1." is 1, ".5" is 0.5 and "3.5.7" is 3.5 |
| Extraction.CommissionAsWritten | backend/src/index.ts:90-112 | 0 without a match; otherwise `parseFloat` of the first `"commission_pct":` match's group; any number read is non-negative (NaN possible) |
| Extraction.LoneDotMatches | backend/src/index.ts:90 | `"commission_pct": .` matches, with the dot as its group |
| Extraction.CommissionCanBeNaN | backend/src/index.ts:90-112 | that reply stores NaN as the commission |
| Extraction.Commission | backend/src/index.ts:112 | the commission as written when it is a number, 0 when NaN; always non-negative |
| Extraction.Quality | backend/src/index.ts:91-95 | the first quality score when present, else the confidence for a verified tip and 0 otherwise |
| Extraction.Extract | backend/src/index.ts:81-95 | non-negative commission, non-empty strategy and risk, quality 0 for an unverified tip without a score |
| Extraction.NoMatchInPlainText | backend/src/index.ts:82-91 | a reply without a double quote matches no pattern |
| Extraction.DefaultsWithoutQuotes | backend/src/index.ts:82-95 | such a reply yields every default |
| Server.IsValidTip | backend/src/index.ts:67-72 | a tip passes only when it is present and keeps at least one character once cut to 100 |
| Server.OpensTrade | backend/src/index.ts:117-127 | a reply opens a trade exactly when it is verified with confidence >= 50 and quality >= 30: the handler's own gate adds nothing to the simulator's |
| Server.EffectiveUserId | backend/src/index.ts:105 | a missing or empty id becomes `anonymous`; any other id is kept |
| Server.TipContent | backend/src/index.ts:106 | the stored text is the first 100 characters of the tip (all of a shorter tip) |
| Server.TipId | backend/src/index.ts:104 | the id is `tip_` followed by digits |
| Server.TipIdsDistinct | backend/src/index.ts:104 | tips at different milliseconds get different ids |
| Server.NewRecord | backend/src/index.ts:103-114 | the stored record carries the id, user, truncated text, time and every extracted field |
| Server.SubmitTip | backend/src/index.ts:63-145 | bad tip: 400 and nothing stored; pipeline error: 500 and nothing stored; otherwise the raw reply, the record (id from the first clock reading) pushed on the ledger, and a trade exactly when both gates pass: the simulator's buy for the reply's confidence, with id and timestamp from the later clock reading; prices, realized profit and settled trades never change |
| Server.RecordTip | backend/src/index.ts:103-127 | the record is pushed on the ledger, then a trade exactly when both gates pass: the simulator's buy for the reply's confidence, pushed and scheduled; prices, realized profit and settled trades never change |
| Server.TradeOnTip | backend/src/index.ts:117-127 | a trade exactly when the handler's and the simulator's gates both pass: the simulator's buy for the reply's confidence, pushed and scheduled; otherwise history and timers are unchanged; prices, realized profit and settled trades never change |
| Server.TradeNeedsVerifiedFlag | backend/src/index.ts:82-117 | no trade without a `"verified"` match of `true` or `false` somewhere in the reply |
| Server.PlainReplyRecordsDefaults | backend/src/index.ts:103-114 | a reply without quotes stores every default and opens no trade |
| Server.DefaultQualityFollowsConfidence | backend/src/index.ts:94-117 | for a verified reply without a quality score, confidence alone decides the trade |
| Server.LeaderboardLimit | backend/src/index.ts:187 | NaN and 0 fall back to 10; any other parsed value, negatives included, is used |
| Server.LeaderboardRequest | backend/src/index.ts:186-190 | the endpoint returns the leaderboard at the effective limit |
| Server.DefaultLeaderboardShowsTen | backend/src/index.ts:187 | without a limit, min(10, number of users) rows |
| IntelVerification.LowerChar | backend/src/agents/intel-verification-agent.ts:25 | `A`-`Z` map to `a`-`z`, the Kelvin sign to `k`, everything else to itself |
| IntelVerification.ToLowerCase | backend/src/agents/intel-verification-agent.ts:25 | lower-casing keeps the length and maps every character |
| IntelVerification.AnyIncluded | backend/src/agents/intel-verification-agent.ts:26 | `some(includes)` is true exactly when some word occurs |
| IntelVerification.ShouldHardcodeSuccess | backend/src/agents/intel-verification-agent.ts:24-27 | success exactly when some keyword occurs in the lower-cased tip |
| IntelVerification.LowerCaseIdempotent | backend/src/agents/intel-verification-agent.ts:25 | lower-casing twice is lower-casing once |
| IntelVerification.CaseInsensitive | backend/src/agents/intel-verification-agent.ts:24-27 | the rule gives the same answer for a tip, its lower case and its ASCII upper case |
| IntelVerification.EmptyTipIsNoSuccess | backend/src/agents/intel-verification-agent.ts:9-27 | no keyword is empty, so the empty tip is no success |
| IntelVerification.Monotone | backend/src/agents/intel-verification-agent.ts:24-27 | a text containing a successful tip is a success too |

## Left out

- **Number formatting.** Floating point and `toFixed`:
  - reals stand for JavaScript numbers, with no rounding;
  - the rounded strings that `getStats`, `getUserProfile` and `getTradingStats` return are the unrounded reals;
  - `getStats` computing `avgConfidence` as `sum / total || 0` is the same guard written differently.
- **Case mapping.** Lower-casing covers `A`-`Z` and the Kelvin sign, the only characters whose lower case can complete a keyword. Other Unicode case mappings are left out.
- Server.TipContent: `substring(0, 100)` counts UTF-16 code units, while the model counts characters. A tip with characters outside the Basic Multilingual Plane keeps fewer characters in the code, and a cut can split a surrogate pair.
- **Logging and I/O.** Console logging and the HTTP framing (status codes are modelled as reply variants), and the `timestamp` the handler adds to a success.
- **Other endpoints.** Endpoints other than `submit-tip` and the leaderboard limit are not modelled. They only forward to ledger and market queries, which are modelled.
- **The agents.** The agent pipeline, the LLM agents and Google search are outside the model: the pipeline's reply or thrown error is a parameter. The verification agent's `shouldHardcodeSuccess` is modelled, but nothing in the backend calls it.
- **Timers, clock and randomness:**
  - the ten-second price timer and the two-second settlement timer are explicit operations (`UpdatePrices`, `SettleNext`);
  - `Date.now()` and `Math.random()` are parameters;
  - all settlements use the same delay, so they fire in scheduling order.
- **Concurrency.** Two submissions interleaving across the pipeline's `await` are not modelled; each submission runs as one step.
- **Query values.** An array-valued query parameter, and `parseInt` of numbers beyond double precision.
- Server.SubmitTip: the body's fields are modelled as strings or missing. In the code a non-string `userId` is stored as it is (index.ts:65,105), so a number and the string of its digits count as different users; the model has no such ids. A non-string `tip` gets the 400, as a missing one does. The record's id and its `timestamp` share one clock reading, while the code reads the clock twice in a row for them.
- Server.TipId: distinct ids are proved only for distinct clock readings. Two tips in the same millisecond get the same id, as in the code.
- TipStorage.TipLedger.CountByUser: the source creates a counter and then mutates it through the map. The model performs one map update per tip with the same result.
- PriceSimulator.Market.ExecuteTrade: a trade evicted from the history is still settled and credited, as in the code. Aliasing is modelled only between the history and the timer queue. The trade's id and `timestamp` share one clock reading, while the code reads the clock twice in a row for them.
- PriceSimulator.Market.constructor: the module-level state is initialised once per process. The model constructs a market explicitly.

## Findings

| source | as written | input that shows it | evidently intended | confidence | as-written member | corrected member |
|---|---|---|---|---|---|---|
| backend/src/index.ts:90-112 | `[\d.]+` accepts a run of dots, and `parseFloat` of `"."` is NaN, so NaN is stored as `commissionPct` and later summed into every commission total | the reply `{"commission_pct": .}` | an unreadable commission falls back to 0 like a missing one, so the totals stay numbers | not executed | Extraction.CommissionCanBeNaN | Extraction.Commission |
