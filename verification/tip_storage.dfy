/**
 * The tip ledger: a module-level array of tip records capped at 100 entries
 * (oldest evicted first), with history, statistics, leaderboard and
 * per-user profile queries computed afresh from the array on every call.
 */
module TipStorage {
  import opened Wrappers
  import opened Logs
  import opened StableSort
  import opened Seqs

  /** Capacity of the ledger. */
  const MaxTips: nat := 100
  /** How many of a user's tips a profile shows. */
  const RecentTipsShown: nat := 5

  datatype TipRecord = TipRecord(
    id: string,
    userId: string,
    tipContent: string,
    timestamp: int,
    verified: bool,
    confidence: nat,
    strategy: string,
    riskLevel: string,
    commissionPct: real,
    tipQualityScore: nat)

  /** The counters one leaderboard group accumulates (confidence and quality
      as running sums, before they are divided into averages). */
  datatype Tally = Tally(tips: nat, verified: nat, commission: real, confidenceSum: nat, qualitySum: nat)

  const NoTips := Tally(0, 0, 0.0, 0, 0)

  /** One step of the `forEach`: `totalTips++`, `verifiedTips++` when verified,
      and the three sums. */
  function Count(t: Tally, tip: TipRecord): (c: Tally)
    ensures c.tips == t.tips + 1 && t.verified <= c.verified <= t.verified + 1
    ensures c.verified == t.verified + 1 <==> tip.verified
    ensures t.verified <= t.tips ==> c.verified <= c.tips
  {
    Tally(t.tips + 1,
          if tip.verified then t.verified + 1 else t.verified,
          t.commission + tip.commissionPct,
          t.confidenceSum + tip.confidence,
          t.qualitySum + tip.tipQualityScore)
  }

  /** The counters of a sequence of tips, accumulated first to last. */
  function TallyOf(s: seq<TipRecord>): (t: Tally)
    ensures t.tips == |s|
    ensures t.verified <= t.tips
    ensures (forall k :: 0 <= k < |s| ==> s[k].verified) ==> t.verified == |s|
    ensures (forall k :: 0 <= k < |s| ==> !s[k].verified) ==> t.verified == 0
  {
    if s == [] then NoTips else Count(TallyOf(s[..|s| - 1]), s[|s| - 1])
  }

  predicate HasUser(s: seq<TipRecord>, u: string)
  {
    exists k :: 0 <= k < |s| && s[k].userId == u
  }

  lemma HasUserSnoc(p: seq<TipRecord>, t: TipRecord, u: string)
    ensures HasUser(p + [t], u) <==> HasUser(p, u) || t.userId == u
  {
    if HasUser(p, u) {
      var k :| 0 <= k < |p| && p[k].userId == u;
      assert (p + [t])[k] == p[k];
    }
    if t.userId == u {
      assert (p + [t])[|p|] == t;
    }
    if HasUser(p + [t], u) {
      var k :| 0 <= k < |p + [t]| && (p + [t])[k].userId == u;
      if k < |p| { assert (p + [t])[k] == p[k]; }
    }
  }

  /** `s.filter(t => t.userId === u)`. */
  function OfUser(s: seq<TipRecord>, u: string): (r: seq<TipRecord>)
    ensures |r| <= |s|
    ensures forall k :: 0 <= k < |r| ==> r[k].userId == u
    ensures r == [] <==> !HasUser(s, u)
  {
    if s == [] then []
    else
      var init, last := s[..|s| - 1], s[|s| - 1];
      SplitLast(s);
      HasUserSnoc(init, last, u);
      OfUser(init, u) + (if last.userId == u then [last] else [])
  }

  /** The filter keeps exactly the records of user `u`. */
  lemma {:induction false} OfUserMembers(s: seq<TipRecord>, u: string)
    ensures forall x :: x in OfUser(s, u) <==> x in s && x.userId == u
  {
    if s != [] {
      var init, last := s[..|s| - 1], s[|s| - 1];
      SplitLast(s);
      OfUserMembers(init, u);
    }
  }

  /** The filter keeps insertion order: filtering a concatenation is the
      concatenation of the filtered parts. */
  lemma {:induction false} OfUserConcat(a: seq<TipRecord>, b: seq<TipRecord>, u: string)
    ensures OfUser(a + b, u) == OfUser(a, u) + OfUser(b, u)
  {
    if b == [] {
      AppendEmpty(a);
      AppendEmpty(OfUser(a, u));
    } else {
      var init, last := b[..|b| - 1], b[|b| - 1];
      SplitLastOfAppend(a, b);
      OfUserConcat(a, init, u);
      AppendAssoc(OfUser(a, u), OfUser(init, u), if last.userId == u then [last] else []);
    }
  }

  /** Filtering twice by the same user changes nothing. */
  lemma {:induction false} OfUserIdempotent(s: seq<TipRecord>, u: string)
    ensures OfUser(OfUser(s, u), u) == OfUser(s, u)
  {
    if s != [] {
      var init, last := s[..|s| - 1], s[|s| - 1];
      OfUserIdempotent(init, u);
      OfUserConcat(OfUser(init, u), if last.userId == u then [last] else [], u);
      if last.userId == u {
        assert OfUser([last], u) == OfUser([], u) + [last];
      }
    }
  }

  /** The distinct user ids of `s` in order of first appearance: the keys of
      the leaderboard's `Map`, which iterates in insertion order. */
  function Users(s: seq<TipRecord>): (r: seq<string>)
    ensures forall u :: u in r <==> HasUser(s, u)
    ensures forall i, j :: 0 <= i < j < |r| ==> r[i] != r[j]
  {
    if s == [] then []
    else
      var init, last := s[..|s| - 1], s[|s| - 1];
      var seen := Users(init);
      SplitLast(s);
      assert forall u :: HasUser(s, u) <==> HasUser(init, u) || last.userId == u by {
        forall u ensures HasUser(s, u) <==> HasUser(init, u) || last.userId == u {
          HasUserSnoc(init, last, u);
        }
      }
      if last.userId in seen then seen else seen + [last.userId]
  }

  /** The index of the first tip of user `u`. */
  function FirstIndex(s: seq<TipRecord>, u: string): (i: nat)
    requires HasUser(s, u)
    ensures i < |s| && s[i].userId == u
    ensures forall k :: 0 <= k < i ==> s[k].userId != u
  {
    if s[0].userId == u then 0
    else
      assert HasUser(s[1..], u) by {
        var k :| 0 <= k < |s| && s[k].userId == u;
        assert s[1..][k - 1] == s[k];
      }
      1 + FirstIndex(s[1..], u)
  }

  lemma FirstIndexOfPrefix(p: seq<TipRecord>, t: TipRecord, u: string)
    requires HasUser(p, u)
    ensures HasUser(p + [t], u) && FirstIndex(p + [t], u) == FirstIndex(p, u)
  {
    var i := FirstIndex(p, u);
    assert (p + [t])[i] == p[i];
  }

  /** `Users` lists users in the order of their first tip. */
  lemma {:induction false} UsersInFirstAppearanceOrder(s: seq<TipRecord>, i: nat, j: nat)
    requires i < j < |Users(s)|
    ensures HasUser(s, Users(s)[i]) && HasUser(s, Users(s)[j])
    ensures FirstIndex(s, Users(s)[i]) < FirstIndex(s, Users(s)[j])
  {
    var init, last := s[..|s| - 1], s[|s| - 1];
    var seen := Users(init);
    SplitLast(s);
    if j < |seen| {
      assert Users(s)[i] == seen[i] && Users(s)[j] == seen[j];
      UsersInFirstAppearanceOrder(init, i, j);
      FirstIndexOfPrefix(init, last, seen[i]);
      FirstIndexOfPrefix(init, last, seen[j]);
    } else {
      assert Users(s) == seen + [last.userId] && Users(s)[j] == last.userId;
      assert !HasUser(init, last.userId);
      FirstIndexOfPrefix(init, last, seen[i]);
    }
  }

  /** Appending a tip adds its user to the end of `Users` unless already present. */
  lemma UsersStep(p: seq<TipRecord>, tip: TipRecord)
    ensures Users(p + [tip]) == if tip.userId in Users(p) then Users(p) else Users(p) + [tip.userId]
  {
    assert (p + [tip])[..|p|] == p;
  }

  /** Appending a tip counts it in its own user's tally and nowhere else. */
  lemma TallyStep(p: seq<TipRecord>, tip: TipRecord, u: string)
    ensures TallyOf(OfUser(p + [tip], u)) ==
      if tip.userId == u then Count(TallyOf(OfUser(p, u)), tip) else TallyOf(OfUser(p, u))
  {
    assert (p + [tip])[..|p|] == p;
    if tip.userId == u {
      var q := OfUser(p, u) + [tip];
      assert q[..|q| - 1] == OfUser(p, u);
    } else {
      assert OfUser(p + [tip], u) == OfUser(p, u);
    }
  }

  /** The leaderboard loop's counters after it has read the tips `p`: one
      entry per user of `p`, keyed in first-appearance order. */
  ghost predicate Accumulated(stats: map<string, Tally>, order: seq<string>, p: seq<TipRecord>)
  {
    && order == Users(p)
    && (forall u :: u in stats <==> u in order)
    && (forall u :: u in stats ==> stats[u] == TallyOf(OfUser(p, u)))
  }

  /** The counters the leaderboard's `forEach` has built after reading the
      tips `p`: a tip creates its user's counter when missing, then counts. */
  function Tallies(p: seq<TipRecord>): (stats: map<string, Tally>)
    ensures forall u :: u in stats ==> 0 < stats[u].tips <= |p| && stats[u].verified <= stats[u].tips
  {
    if p == [] then map[]
    else
      var before, tip := Tallies(p[..|p| - 1]), p[|p| - 1];
      before[tip.userId := Count(if tip.userId in before then before[tip.userId] else NoTips, tip)]
  }

  /** The counters hold exactly the users of `p`, each with the tally of
      that user's own tips. */
  lemma {:induction false} TalliesAccumulate(p: seq<TipRecord>)
    ensures Accumulated(Tallies(p), Users(p), p)
  {
    if p != [] {
      var init, tip := p[..|p| - 1], p[|p| - 1];
      TalliesAccumulate(init);
      var stats := Tallies(init);
      SplitLast(p);
      AbsorbTip(stats, Users(init), init, tip, Tallies(p),
        if tip.userId in stats then Users(init) else Users(init) + [tip.userId]);
    }
  }

  /** One more step of the `forEach` over `s`. */
  lemma TalliesStep(s: seq<TipRecord>, i: nat)
    requires i < |s|
    ensures var stats, u := Tallies(s[..i]), s[i].userId;
      && Tallies(s[..i + 1]) == stats[u := Count(if u in stats then stats[u] else NoTips, s[i])]
      && Users(s[..i + 1]) == if u in stats then Users(s[..i]) else Users(s[..i]) + [u]
  {
    TakeOneMore(s, i);
    TalliesAccumulate(s[..i]);
    UsersStep(s[..i], s[i]);
  }

  /** Finishing the accumulated counters, user by user, gives the rollups. */
  lemma FinishedAreSummaries(stats: map<string, Tally>, order: seq<string>, s: seq<TipRecord>)
    requires Accumulated(stats, order, s)
    ensures FinishAll(stats, order) == Summaries(s)
  {
    var entries := FinishAll(stats, order);
    assert forall k :: 0 <= k < |entries| ==> entries[k] == Summaries(s)[k];
  }

  /** Averaging, sorting and cutting the counters of the whole ledger gives
      the leaderboard. */
  lemma BoardOfCounters(stats: map<string, Tally>, order: seq<string>, s: seq<TipRecord>, limit: int)
    requires Accumulated(stats, order, s)
    ensures SliceTo(SortDescending(FinishAll(stats, order), CommissionOf), limit) == Leaderboard(s, limit)
  {
    FinishedAreSummaries(stats, order, s);
    LeaderboardIsSlice(s, limit);
  }

  /** The `.map` over the counters, in the order users were first seen. */
  function FinishAll(stats: map<string, Tally>, order: seq<string>): (r: seq<UserSummary>)
    requires forall u :: u in order ==> u in stats
    ensures |r| == |order|
    ensures forall k :: 0 <= k < |order| ==> r[k] == Finish(order[k], stats[order[k]])
  {
    seq(|order|, k requires 0 <= k < |order| => Finish(order[k], stats[order[k]]))
  }

  lemma AbsorbTip(stats: map<string, Tally>, order: seq<string>, p: seq<TipRecord>, tip: TipRecord,
                  stats': map<string, Tally>, order': seq<string>)
    requires Accumulated(stats, order, p)
    requires order' == if tip.userId in stats then order else order + [tip.userId]
    requires stats' == stats[tip.userId := Count(if tip.userId in stats then stats[tip.userId] else NoTips, tip)]
    ensures Accumulated(stats', order', p + [tip])
  {
    UsersStep(p, tip);
    forall u | u in stats' ensures stats'[u] == TallyOf(OfUser(p + [tip], u)) {
      TallyStep(p, tip, u);
    }
  }

  /** One leaderboard row, and the figures of a user profile. */
  datatype UserSummary = UserSummary(
    userId: string,
    totalTips: nat,
    verifiedTips: nat,
    totalCommission: real,
    avgConfidence: real,
    avgQuality: real,
    successRate: real)

  /** `part / whole * 100`, or 0 when `whole` is 0. */
  function Rate(part: nat, whole: nat): (r: real)
    ensures whole == 0 ==> r == 0.0
    ensures whole > 0 ==> r * whole as real == part as real * 100.0
    ensures part <= whole ==> 0.0 <= r <= 100.0
  {
    if whole > 0 then
      var q := part as real / whole as real;
      assert q * whole as real == part as real;
      assert part <= whole ==> q <= 1.0;
      q * 100.0
    else 0.0
  }

  /** `sum / n`, or 0 when `n` is 0. */
  function Mean(sum: nat, n: nat): (r: real)
    ensures n == 0 ==> r == 0.0
    ensures n > 0 ==> r * n as real == sum as real
  {
    if n > 0 then sum as real / n as real else 0.0
  }

  /** The `.map` step: averages and success rate, each guarded by `totalTips > 0`. */
  function Finish(u: string, t: Tally): (e: UserSummary)
    ensures t.verified <= t.tips ==> 0.0 <= e.successRate <= 100.0
    ensures t.tips > 0 ==> e.successRate * t.tips as real == t.verified as real * 100.0
    ensures t.tips > 0 ==> e.avgConfidence * t.tips as real == t.confidenceSum as real
    ensures t.tips > 0 ==> e.avgQuality * t.tips as real == t.qualitySum as real
  {
    UserSummary(
      u, t.tips, t.verified, t.commission,
      Mean(t.confidenceSum, t.tips), Mean(t.qualitySum, t.tips), Rate(t.verified, t.tips))
  }

  /** The profile computes its figures inline; they are the leaderboard's. */
  lemma InlineFiguresAreFinish(u: string, t: Tally)
    requires t.tips > 0
    ensures Finish(u, t) == UserSummary(
      u, t.tips, t.verified, t.commission,
      t.confidenceSum as real / t.tips as real,
      t.qualitySum as real / t.tips as real,
      t.verified as real / t.tips as real * 100.0)
  {
  }

  /** The rollup of user `u`'s tips. */
  function Summarize(s: seq<TipRecord>, u: string): (e: UserSummary)
    ensures e.userId == u && e.totalTips == |OfUser(s, u)|
    ensures e.verifiedTips <= e.totalTips
    ensures HasUser(s, u) <==> e.totalTips > 0
    ensures 0.0 <= e.successRate <= 100.0
  {
    var mine := OfUser(s, u);
    var t := TallyOf(mine);
    Finish(u, t)
  }

  /** One rollup per user, in order of first appearance. */
  function Summaries(s: seq<TipRecord>): (r: seq<UserSummary>)
    ensures |r| == |Users(s)|
    ensures forall k :: 0 <= k < |r| ==> r[k] == Summarize(s, Users(s)[k])
  {
    var users := Users(s);
    seq(|users|, k requires 0 <= k < |users| => Summarize(s, users[k]))
  }

  /** The sort key of the leaderboard. */
  function CommissionOf(e: UserSummary): real
  {
    e.totalCommission
  }

  /** `s.slice(0, end)`: a negative `end` counts from the back. */
  function SliceTo<T>(s: seq<T>, end: int): (r: seq<T>)
    ensures r <= s
    ensures |r| == if end >= 0 then (if end < |s| then end else |s|)
                   else (if |s| + end > 0 then |s| + end else 0)
  {
    if end >= 0 then s[..if end < |s| then end else |s|]
    else s[..if |s| + end > 0 then |s| + end else 0]
  }

  /** The leaderboard: user rollups sorted by total commission, highest
      first (stable), cut to `limit`. */
  function Leaderboard(s: seq<TipRecord>, limit: int): (r: seq<UserSummary>)
    ensures |r| == if limit >= 0 then (if limit < |Users(s)| then limit else |Users(s)|)
                   else (if |Users(s)| + limit > 0 then |Users(s)| + limit else 0)
    ensures NonIncreasing(r, CommissionOf)
  {
    var sorted := SortDescending(Summaries(s), CommissionOf);
    var r := SliceTo(sorted, limit);
    assert NonIncreasing(r, CommissionOf) by {
      assert forall k :: 0 <= k < |r| ==> r[k] == sorted[k];
    }
    r
  }

  lemma LeaderboardIsSlice(s: seq<TipRecord>, limit: int)
    ensures Leaderboard(s, limit) == SliceTo(SortDescending(Summaries(s), CommissionOf), limit)
  {
  }

  /** Every row of the leaderboard is the rollup of a user who has tips. */
  lemma LeaderboardRows(s: seq<TipRecord>, limit: int)
    ensures var r := Leaderboard(s, limit);
      forall k :: 0 <= k < |r| ==> HasUser(s, r[k].userId) && r[k] == Summarize(s, r[k].userId)
  {
    var sorted := SortDescending(Summaries(s), CommissionOf);
    var r := Leaderboard(s, limit);
    forall k | 0 <= k < |r|
      ensures HasUser(s, r[k].userId) && r[k] == Summarize(s, r[k].userId)
    {
      assert r[k] == sorted[k];
      SortedRowIsSummary(s, k);
    }
  }

  lemma SortedRowIsSummary(s: seq<TipRecord>, k: nat)
    requires k < |SortDescending(Summaries(s), CommissionOf)|
    ensures var e := SortDescending(Summaries(s), CommissionOf)[k];
      HasUser(s, e.userId) && e == Summarize(s, e.userId)
  {
    var entries := Summaries(s);
    var e := SortDescending(entries, CommissionOf)[k];
    assert e in multiset(entries);
    var m :| 0 <= m < |entries| && entries[m] == e;
    assert Users(s)[m] in Users(s);
  }

  /** Each user appears at most once on the leaderboard. */
  lemma LeaderboardUsersDistinct(s: seq<TipRecord>, limit: int)
    ensures forall i, j :: 0 <= i < j < |Leaderboard(s, limit)| ==>
      Leaderboard(s, limit)[i].userId != Leaderboard(s, limit)[j].userId
  {
    var entries := Summaries(s);
    assert Distinct(entries) by {
      forall i, j | 0 <= i < j < |entries| ensures entries[i] != entries[j] {
        assert entries[i].userId == Users(s)[i] && entries[j].userId == Users(s)[j];
      }
    }
    SortKeepsDistinct(entries, CommissionOf);
    var sorted := SortDescending(entries, CommissionOf);
    var r := Leaderboard(s, limit);
    LeaderboardIsSlice(s, limit);
    LeaderboardRows(s, limit);
    forall i, j | 0 <= i < j < |r| ensures r[i].userId != r[j].userId {
      assert r[i] == sorted[i] && r[j] == sorted[j];
    }
  }

  /** Ties on total commission keep first-appearance order: the rows with any
      given commission are a prefix of that commission's rows in `Summaries`,
      which lists users in order of their first tip. */
  lemma LeaderboardTiesKeepOrder(s: seq<TipRecord>, limit: int, c: real)
    ensures WithKey(Leaderboard(s, limit), CommissionOf, c) <= WithKey(Summaries(s), CommissionOf, c)
  {
    var sorted := SortDescending(Summaries(s), CommissionOf);
    SortIsStable(Summaries(s), CommissionOf, c);
    WithKeyPrefix(Leaderboard(s, limit), sorted, CommissionOf, c);
  }

  /** `Summaries` is in order of each user's first tip. */
  lemma SummariesInFirstAppearanceOrder(s: seq<TipRecord>, i: nat, j: nat)
    requires i < j < |Summaries(s)|
    ensures HasUser(s, Summaries(s)[i].userId) && HasUser(s, Summaries(s)[j].userId)
    ensures FirstIndex(s, Summaries(s)[i].userId) < FirstIndex(s, Summaries(s)[j].userId)
  {
    UsersInFirstAppearanceOrder(s, i, j);
  }

  datatype TipStats = TipStats(
    totalTips: nat,
    verifiedTips: nat,
    verificationRate: real,
    avgConfidence: real,
    totalCommission: real)

  datatype UserProfile = UserProfile(summary: UserSummary, recentTips: seq<TipRecord>)

  /** The figures `getStats()` derives from the counters of the whole ledger. */
  function StatsOf(all: Tally): (r: TipStats)
    requires all.verified <= all.tips
    ensures r.totalTips == all.tips && r.verifiedTips == all.verified
    ensures all.tips == 0 ==> r.verificationRate == 0.0 && r.avgConfidence == 0.0
    ensures 0.0 <= r.verificationRate <= 100.0
    ensures all.tips > 0 ==> r.verificationRate * all.tips as real == all.verified as real * 100.0
    ensures all.tips > 0 ==> r.avgConfidence * all.tips as real == all.confidenceSum as real
    ensures r.totalCommission == all.commission
  {
    TipStats(
      all.tips,
      all.verified,
      Rate(all.verified, all.tips),
      Mean(all.confidenceSum, all.tips),
      all.commission)
  }

  /** The profile built from user `u`'s tips `mine`: the figures, computed
      inline, and the newest tips first. */
  function Profile(u: string, mine: seq<TipRecord>): (p: UserProfile)
    requires mine != []
    ensures p.summary == Finish(u, TallyOf(mine))
    ensures p.recentTips == Recent(mine, RecentTipsShown)
  {
    var t := TallyOf(mine);
    InlineFiguresAreFinish(u, t);
    UserProfile(
      UserSummary(
        u, |mine|, t.verified, t.commission,
        t.confidenceSum as real / |mine| as real,
        t.qualitySum as real / |mine| as real,
        t.verified as real / |mine| as real * 100.0),
      Recent(mine, RecentTipsShown))
  }

  class TipLedger {
    var tips: seq<TipRecord>

    ghost predicate Valid()
      reads this
    {
      |tips| <= MaxTips
    }

    constructor ()
      ensures Valid() && tips == []
    {
      tips := [];
    }

    /** `saveTip`: push, then shift when over capacity. */
    method SaveTip(tip: TipRecord)
      requires Valid()
      modifies this
      ensures Valid()
      ensures tips == Push(old(tips), tip, MaxTips)
    {
      tips := tips + [tip];
      if |tips| > MaxTips {
        tips := tips[1..];
      }
    }

    /** `getTipHistory(userId?)`: the whole ledger when `userId` is absent or
        empty, else that user's records in insertion order. */
    function GetTipHistory(userId: Option<string>): (r: seq<TipRecord>)
      reads this
      ensures userId == None || userId == Some("") ==> r == tips
      ensures userId.Some? && userId.value != "" ==>
        && r == OfUser(tips, userId.value)
        && forall x :: x in r <==> x in tips && x.userId == userId.value
    {
      match userId
      case Some(u) =>
        if u != "" then OfUserMembers(tips, u); OfUser(tips, u) else tips
      case None => tips
    }

    /** `getStats()`: counts, rates and sums over the whole ledger; the empty
        ledger gives zeros rather than a division by zero. */
    function GetStats(): (r: TipStats)
      reads this
      ensures r.totalTips == |tips| && r.verifiedTips <= r.totalTips
      ensures tips == [] ==> r == TipStats(0, 0, 0.0, 0.0, 0.0)
      ensures 0.0 <= r.verificationRate <= 100.0
      ensures r == StatsOf(TallyOf(tips))
    {
      StatsOf(TallyOf(tips))
    }

    /** `getLeaderboard(limit)`: the `forEach` over the ledger fills a map of
        counters keyed by user id; the rows are then averaged, sorted and cut. */
    method GetLeaderboard(limit: int) returns (board: seq<UserSummary>)
      ensures board == Leaderboard(tips, limit)
    {
      var stats, order := CountByUser();
      TalliesAccumulate(tips);
      board := SliceTo(SortDescending(FinishAll(stats, order), CommissionOf), limit);
      BoardOfCounters(stats, order, tips, limit);
    }

    /** The `forEach` of `getLeaderboard`: a counter per user id, and the
        ids in the order they first appear. */
    method CountByUser() returns (stats: map<string, Tally>, order: seq<string>)
      ensures stats == Tallies(tips) && order == Users(tips)
    {
      stats, order := map[], [];
      var i := 0;
      while i < |tips|
        invariant 0 <= i <= |tips|
        invariant stats == Tallies(tips[..i]) && order == Users(tips[..i])
      {
        var tip := tips[i];
        TalliesStep(tips, i);
        var counted := NoTips;
        if tip.userId in stats {
          counted := stats[tip.userId];
        } else {
          order := order + [tip.userId];
        }
        stats := stats[tip.userId := Count(counted, tip)];
        i := i + 1;
      }
      assert tips[..i] == tips;
    }

    /** `getUserProfile(u)`: `None` (null) when the user has no tip in the
        ledger; otherwise the user's rollup and newest five tips, newest first. */
    function GetUserProfile(u: string): (r: Option<UserProfile>)
      reads this
      ensures r == None <==> !HasUser(tips, u)
      ensures r.Some? ==> r.value.summary == Summarize(tips, u)
      ensures r.Some? ==> r.value.recentTips == Recent(OfUser(tips, u), RecentTipsShown)
    {
      var mine := OfUser(tips, u);
      if |mine| == 0 then None else Some(Profile(u, mine))
    }
  }
}
