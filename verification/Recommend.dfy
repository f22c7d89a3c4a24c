/** The follow / drop / watch recommendation (services/analytics/analytics/leader_report.py). */
module Recommend {
  import opened Wrappers
  import opened Rounding
  import opened Grouping
  import opened Events
  import opened Leaders
  import opened LeaderLaws

  datatype Bucket = Follow | Drop | Watch

  function Classify(m: LeaderMetrics, minTrades: int, minProfitFactor: real): Bucket {
    if m.trades < minTrades then Watch
    else if m.totalRealizedUsd > 0.0 && (m.profitFactor.None? || m.profitFactor.value >= minProfitFactor) then Follow
    else if m.totalRealizedUsd < 0.0 then Drop
    else Watch
  }

  function AddressIn(b: Bucket, minTrades: int, minProfitFactor: real): LeaderMetrics -> seq<string> {
    (m: LeaderMetrics) => if Classify(m, minTrades, minProfitFactor) == b then [m.leaderAddress] else []
  }

  /** The leaders of one bucket, in report order. */
  function Chosen(metrics: seq<LeaderMetrics>, b: Bucket, minTrades: int, minProfitFactor: real): seq<string> {
    FlatMap(metrics, AddressIn(b, minTrades, minProfitFactor))
  }

  method RecommendFollowSet(metrics: seq<LeaderMetrics>, minTrades: int, minProfitFactor: real)
    returns (follow: seq<string>, drop: seq<string>, watch: seq<string>)
    ensures follow == Chosen(metrics, Follow, minTrades, minProfitFactor)
    ensures drop == Chosen(metrics, Drop, minTrades, minProfitFactor)
    ensures watch == Chosen(metrics, Watch, minTrades, minProfitFactor)
  {
    follow, drop, watch := [], [], [];
    for i := 0 to |metrics|
      invariant follow == Chosen(metrics[..i], Follow, minTrades, minProfitFactor)
      invariant drop == Chosen(metrics[..i], Drop, minTrades, minProfitFactor)
      invariant watch == Chosen(metrics[..i], Watch, minTrades, minProfitFactor)
    {
      assert metrics[..i + 1][..i] == metrics[..i];
      assert follow + [] == follow && drop + [] == drop && watch + [] == watch;
      var m := metrics[i];
      if m.trades < minTrades {
        watch := watch + [m.leaderAddress];
        continue;
      }
      var pfOk := m.profitFactor.None? || m.profitFactor.value >= minProfitFactor;
      if m.totalRealizedUsd > 0.0 && pfOk {
        follow := follow + [m.leaderAddress];
      } else if m.totalRealizedUsd < 0.0 {
        drop := drop + [m.leaderAddress];
      } else {
        watch := watch + [m.leaderAddress];
      }
    }
    assert metrics[..|metrics|] == metrics;
  }

  function Address(): LeaderMetrics -> string {
    (m: LeaderMetrics) => m.leaderAddress
  }

  lemma OneBucket(m: LeaderMetrics, minTrades: int, minProfitFactor: real)
    ensures multiset(AddressIn(Follow, minTrades, minProfitFactor)(m))
          + multiset(AddressIn(Drop, minTrades, minProfitFactor)(m))
          + multiset(AddressIn(Watch, minTrades, minProfitFactor)(m)) == multiset{m.leaderAddress}
  {
  }

  lemma GrowThree(a: seq<string>, b: seq<string>, c: seq<string>, x: seq<string>, y: seq<string>, z: seq<string>)
    ensures multiset((a + x) + ((b + y) + (c + z))) == multiset(a + (b + c)) + (multiset(x) + multiset(y) + multiset(z))
  {
  }

  /** All recommended leaders, list after list. */
  function Listed(metrics: seq<LeaderMetrics>, minTrades: int, minProfitFactor: real): seq<string> {
    Chosen(metrics, Follow, minTrades, minProfitFactor) +
    (Chosen(metrics, Drop, minTrades, minProfitFactor) + Chosen(metrics, Watch, minTrades, minProfitFactor))
  }

  lemma ListedSnoc(init: seq<LeaderMetrics>, m: LeaderMetrics, minTrades: int, minProfitFactor: real)
    ensures multiset(Listed(init + [m], minTrades, minProfitFactor)) ==
      multiset(Listed(init, minTrades, minProfitFactor)) + multiset{m.leaderAddress}
  {
    var f, d, w := AddressIn(Follow, minTrades, minProfitFactor), AddressIn(Drop, minTrades, minProfitFactor),
                   AddressIn(Watch, minTrades, minProfitFactor);
    FlatMapSnoc(init, m, f);
    FlatMapSnoc(init, m, d);
    FlatMapSnoc(init, m, w);
    GrowThree(FlatMap(init, f), FlatMap(init, d), FlatMap(init, w), f(m), d(m), w(m));
    OneBucket(m, minTrades, minProfitFactor);
  }

  lemma PartitionSnoc(init: seq<LeaderMetrics>, m: LeaderMetrics, minTrades: int, minProfitFactor: real)
    requires Perm(Map(init, Address()), Listed(init, minTrades, minProfitFactor))
    ensures Perm(Map(init + [m], Address()), Listed(init + [m], minTrades, minProfitFactor))
  {
    ListedSnoc(init, m, minTrades, minProfitFactor);
    MapSnoc(init, m, Address());
  }

  /** The three lists partition the report: every leader is in exactly one of them, once per row. */
  lemma {:induction false} Partition(metrics: seq<LeaderMetrics>, minTrades: int, minProfitFactor: real)
    ensures Perm(Map(metrics, Address()), Listed(metrics, minTrades, minProfitFactor))
  {
    if metrics != [] {
      var init, m := metrics[..|metrics| - 1], metrics[|metrics| - 1];
      assert metrics == init + [m];
      Partition(init, minTrades, minProfitFactor);
      PartitionSnoc(init, m, minTrades, minProfitFactor);
    }
  }

  /** Raising `min_trades` moves leaders into watch and nowhere else, and moves exactly those whose
      trade count the new floor has passed. */
  lemma RaisingMinTrades(m: LeaderMetrics, low: int, high: int, minProfitFactor: real)
    requires low <= high
    ensures Classify(m, high, minProfitFactor) ==
      if m.trades < high then Watch else Classify(m, low, minProfitFactor)
    ensures Classify(m, high, minProfitFactor) != Classify(m, low, minProfitFactor) <==>
      low <= m.trades < high && Classify(m, low, minProfitFactor) != Watch
  {
  }

  /** Raising `min_profit_factor` moves leaders from follow to watch, never to drop, and moves exactly
      those whose profit factor falls between the two. */
  lemma RaisingMinProfitFactor(m: LeaderMetrics, minTrades: int, low: real, high: real)
    requires low <= high
    ensures Classify(m, minTrades, high) != Classify(m, minTrades, low) ==>
      Classify(m, minTrades, low) == Follow && Classify(m, minTrades, high) == Watch
    ensures Classify(m, minTrades, high) != Classify(m, minTrades, low) <==>
      m.trades >= minTrades && m.totalRealizedUsd > 0.0 && m.profitFactor.Some? && low <= m.profitFactor.value < high
  {
  }

  function WithTrades(floor: int): LeaderMetrics -> seq<LeaderMetrics> {
    (m: LeaderMetrics) => if m.trades >= floor then [m] else []
  }

  lemma {:induction false} FewerEach<A, B>(s: seq<A>, f: A -> seq<B>, g: A -> seq<B>)
    requires forall i :: 0 <= i < |s| ==> f(s[i]) == [] || f(s[i]) == g(s[i])
    ensures multiset(FlatMap(s, f)) <= multiset(FlatMap(s, g))
  {
    if s != [] {
      var init, x := s[..|s| - 1], s[|s| - 1];
      FewerEach(init, f, g);
      assert multiset(FlatMap(s, f)) == multiset(FlatMap(init, f)) + multiset(f(x));
      assert multiset(FlatMap(s, g)) == multiset(FlatMap(init, g)) + multiset(g(x));
    }
  }

  lemma TradeFloorStep(enough: seq<LeaderMetrics>, m: LeaderMetrics, b: Bucket, low: int, high: int, pf: real)
    requires low <= high && b != Watch
    ensures Chosen(enough + WithTrades(high)(m), b, low, pf) == Chosen(enough, b, low, pf) + AddressIn(b, high, pf)(m)
  {
    if m.trades >= high {
      assert WithTrades(high)(m) == [m];
      FlatMapSnoc(enough, m, AddressIn(b, low, pf));
    } else {
      assert WithTrades(high)(m) == [] && enough + [] == enough;
      assert AddressIn(b, high, pf)(m) == [] && Chosen(enough, b, low, pf) + [] == Chosen(enough, b, low, pf);
    }
  }

  lemma {:induction false} TradeFloorIsFilter(ms: seq<LeaderMetrics>, b: Bucket, low: int, high: int, pf: real)
    requires low <= high && b != Watch
    ensures Chosen(ms, b, high, pf) == Chosen(FlatMap(ms, WithTrades(high)), b, low, pf)
  {
    if ms != [] {
      var init, m := ms[..|ms| - 1], ms[|ms| - 1];
      TradeFloorIsFilter(init, b, low, high, pf);
      TradeFloorStep(FlatMap(init, WithTrades(high)), m, b, low, high, pf);
    }
  }

  lemma TradeFloorMoves(ms: seq<LeaderMetrics>, low: int, high: int, pf: real)
    requires low <= high
    ensures multiset(Chosen(ms, Follow, high, pf)) <= multiset(Chosen(ms, Follow, low, pf))
    ensures multiset(Chosen(ms, Drop, high, pf)) <= multiset(Chosen(ms, Drop, low, pf))
    ensures multiset(Chosen(ms, Watch, low, pf)) <= multiset(Chosen(ms, Watch, high, pf))
  {
    forall m: LeaderMetrics
      ensures AddressIn(Follow, high, pf)(m) == [] || AddressIn(Follow, high, pf)(m) == AddressIn(Follow, low, pf)(m)
      ensures AddressIn(Drop, high, pf)(m) == [] || AddressIn(Drop, high, pf)(m) == AddressIn(Drop, low, pf)(m)
      ensures AddressIn(Watch, low, pf)(m) == [] || AddressIn(Watch, low, pf)(m) == AddressIn(Watch, high, pf)(m)
    {
      RaisingMinTrades(m, low, high, pf);
    }
    FewerEach(ms, AddressIn(Follow, high, pf), AddressIn(Follow, low, pf));
    FewerEach(ms, AddressIn(Drop, high, pf), AddressIn(Drop, low, pf));
    FewerEach(ms, AddressIn(Watch, low, pf), AddressIn(Watch, high, pf));
  }

  /** Raising `min_trades` from `low` to `high` on the lists: follow and drop are, in order, what they
      are of the report without the rows of fewer trades, so they can only lose leaders; and watch gains
      what they lose. */
  lemma TradeFloorOnLists(ms: seq<LeaderMetrics>, low: int, high: int, pf: real)
    requires low <= high
    ensures var enough := FlatMap(ms, WithTrades(high));
      && Chosen(ms, Follow, high, pf) == Chosen(enough, Follow, low, pf)
      && Chosen(ms, Drop, high, pf) == Chosen(enough, Drop, low, pf)
    ensures multiset(Chosen(ms, Follow, high, pf)) <= multiset(Chosen(ms, Follow, low, pf))
    ensures multiset(Chosen(ms, Drop, high, pf)) <= multiset(Chosen(ms, Drop, low, pf))
    ensures multiset(Chosen(ms, Watch, low, pf)) <= multiset(Chosen(ms, Watch, high, pf))
    ensures Perm(Listed(ms, high, pf), Listed(ms, low, pf))
  {
    TradeFloorIsFilter(ms, Follow, low, high, pf);
    TradeFloorIsFilter(ms, Drop, low, high, pf);
    TradeFloorMoves(ms, low, high, pf);
    assert Perm(Listed(ms, high, pf), Listed(ms, low, pf)) by {
      Partition(ms, low, pf);
      Partition(ms, high, pf);
    }
  }

  lemma ProfitFloorStep(m: LeaderMetrics, n: int, low: real, high: real)
    requires low <= high
    ensures AddressIn(Drop, n, high)(m) == AddressIn(Drop, n, low)(m)
    ensures multiset(AddressIn(Follow, n, high)(m)) <= multiset(AddressIn(Follow, n, low)(m))
    ensures multiset(AddressIn(Follow, n, high)(m)) + multiset(AddressIn(Watch, n, high)(m))
         == multiset(AddressIn(Follow, n, low)(m)) + multiset(AddressIn(Watch, n, low)(m))
  {
    RaisingMinProfitFactor(m, n, low, high);
  }

  lemma ChosenLast(ms: seq<LeaderMetrics>, b: Bucket, n: int, pf: real)
    requires ms != []
    ensures Chosen(ms, b, n, pf) == Chosen(ms[..|ms| - 1], b, n, pf) + AddressIn(b, n, pf)(ms[|ms| - 1])
    ensures multiset(Chosen(ms, b, n, pf))
         == multiset(Chosen(ms[..|ms| - 1], b, n, pf)) + multiset(AddressIn(b, n, pf)(ms[|ms| - 1]))
  {
  }

  /** Adding equal pairs to equal pairs. */
  lemma PairSums<A>(a: multiset<A>, b: multiset<A>, c: multiset<A>, d: multiset<A>,
                    x: multiset<A>, y: multiset<A>, z: multiset<A>, w: multiset<A>)
    requires a + b == c + d && x + y == z + w
    ensures (a + x) + (b + y) == (c + z) + (d + w)
  {
    assert (a + x) + (b + y) == (a + b) + (x + y);
    assert (c + z) + (d + w) == (c + d) + (z + w);
  }

  /** Raising `min_profit_factor` on the lists: drop stays as it is, follow can only lose leaders, and
      watch gains exactly those. */
  lemma {:induction false} ProfitFloorOnLists(ms: seq<LeaderMetrics>, n: int, low: real, high: real)
    requires low <= high
    ensures Chosen(ms, Drop, n, high) == Chosen(ms, Drop, n, low)
    ensures multiset(Chosen(ms, Follow, n, high)) <= multiset(Chosen(ms, Follow, n, low))
    ensures multiset(Chosen(ms, Follow, n, high)) + multiset(Chosen(ms, Watch, n, high))
         == multiset(Chosen(ms, Follow, n, low)) + multiset(Chosen(ms, Watch, n, low))
  {
    if ms != [] {
      var init, m := ms[..|ms| - 1], ms[|ms| - 1];
      ProfitFloorOnLists(init, n, low, high);
      ProfitFloorStep(m, n, low, high);
      ChosenLast(ms, Drop, n, low);
      ChosenLast(ms, Drop, n, high);
      ChosenLast(ms, Follow, n, low);
      ChosenLast(ms, Follow, n, high);
      ChosenLast(ms, Watch, n, low);
      ChosenLast(ms, Watch, n, high);
      PairSums(multiset(Chosen(init, Follow, n, high)), multiset(Chosen(init, Watch, n, high)),
               multiset(Chosen(init, Follow, n, low)), multiset(Chosen(init, Watch, n, low)),
               multiset(AddressIn(Follow, n, high)(m)), multiset(AddressIn(Watch, n, high)(m)),
               multiset(AddressIn(Follow, n, low)(m)), multiset(AddressIn(Watch, n, low)(m)));
    }
  }

  // ---------- what the recommendation means for a reported row ----------

  lemma OneTrade(r: real)
    ensures Sum(Positive()(r)) + Sum(Negative()(r)) == r && Sum(Negative()(r)) <= 0.0 <= Sum(Positive()(r))
  {
    SumSnoc([], r);
    assert [] + [r] == [r];
  }

  lemma {:induction false} WinsAndLosses(rs: seq<real>)
    ensures Sum(FlatMap(rs, Positive())) + Sum(FlatMap(rs, Negative())) == Sum(rs)
    ensures Sum(FlatMap(rs, Negative())) <= 0.0 <= Sum(FlatMap(rs, Positive()))
  {
    if rs != [] {
      var init, r := rs[..|rs| - 1], rs[|rs| - 1];
      WinsAndLosses(init);
      OneTrade(r);
      SumConcat(FlatMap(init, Positive()), Positive()(r));
      SumConcat(FlatMap(init, Negative()), Negative()(r));
    }
  }

  lemma RatioAboveOne(sumWins: real, grossLoss: real)
    requires sumWins > grossLoss > 0.0
    ensures Round3(sumWins / grossLoss) >= 1.0
  {
    assert sumWins / grossLoss >= 1.0;
    HalfEvenMonotone(1000.0, sumWins / grossLoss * 1000.0);
  }

  /** With a profit factor floor of at most one, the recommendation is by sign alone: among leaders
      with enough trades, follow is exactly the rows that show a profit, drop exactly those that show
      a loss, and watch exactly those that show zero. The default floor of 1.2 is what makes a
      profitable leader go to watch. */
  lemma FollowsEveryProfit(leader: string, rs: seq<real>, last: Option<int>, minTrades: int, minProfitFactor: real)
    requires minProfitFactor <= 1.0
    ensures var m := MetricsRow(leader, rs, last);
      m.trades >= minTrades ==>
        && (Classify(m, minTrades, minProfitFactor) == Follow <==> m.totalRealizedUsd > 0.0)
        && (Classify(m, minTrades, minProfitFactor) == Drop <==> m.totalRealizedUsd < 0.0)
        && (Classify(m, minTrades, minProfitFactor) == Watch <==> m.totalRealizedUsd == 0.0)
  {
    hide Best, Worst, FlatMap, Sum;
    WinsAndLosses(rs);
    var sumWins, grossLoss := Sum(FlatMap(rs, Positive())), -Sum(FlatMap(rs, Negative()));
    if Round2(Sum(rs)) > 0.0 {
      assert HalfEven(Sum(rs) * 100.0) >= 1;
      assert Sum(rs) > 0.0;
      if grossLoss > 0.0 {
        RatioAboveOne(sumWins, grossLoss);
      }
    }
  }

  // ---------- a reported row is consistent ----------

  /** `n` times `x`. */
  function Times(n: nat, x: real): (r: real)
    ensures r == n as real * x
  {
    if n == 0 then 0.0 else Times(n - 1, x) + x
  }

  lemma {:induction false} SumBounds(rs: seq<real>, low: real, high: real)
    requires forall i :: 0 <= i < |rs| ==> low <= rs[i] <= high
    ensures Times(|rs|, low) <= Sum(rs) <= Times(|rs|, high)
  {
    if rs != [] {
      SumBounds(rs[..|rs| - 1], low, high);
    }
  }

  lemma {:induction false} WinsAreTrades(rs: seq<real>)
    ensures |FlatMap(rs, Positive())| + |FlatMap(rs, Negative())| <= |rs|
    ensures Sum(FlatMap(rs, Negative())) == 0.0 <==> FlatMap(rs, Negative()) == []
  {
    if rs != [] {
      var init, r := rs[..|rs| - 1], rs[|rs| - 1];
      WinsAreTrades(init);
      WinsAndLosses(init);
      var losses := FlatMap(init, Negative());
      SumSnoc(losses, r);
      assert losses + [] == losses;
    }
  }

  lemma SumBetween(rs: seq<real>)
    requires rs != []
    ensures Times(|rs|, Worst(rs)) <= Sum(rs) <= Times(|rs|, Best(rs))
  {
    BestIs(rs);
    forall i | 0 <= i < |rs| ensures Worst(rs) <= rs[i] <= Best(rs) {
      assert rs[i] in rs;
    }
    SumBounds(rs, Worst(rs), Best(rs));
  }

  lemma AverageBetween(rs: seq<real>)
    requires rs != []
    ensures Worst(rs) <= Ratio(Sum(rs), |rs|) <= Best(rs)
  {
    SumBetween(rs);
    RatioBetween(Sum(rs), |rs|, Worst(rs), Best(rs));
  }

  lemma RatioBetween(total: real, n: nat, low: real, high: real)
    requires n > 0 && Times(n, low) <= total <= Times(n, high)
    ensures low <= Ratio(total, n) <= high
  {
    Divide(total, n as real, low, high);
  }

  lemma Divide(total: real, n: real, low: real, high: real)
    requires n > 0.0 && n * low <= total <= n * high
    ensures low <= total / n <= high
  {
    assert total / n - low == (total - n * low) / n && high - total / n == (n * high - total) / n;
  }

  lemma WinRateBetween(wins: nat, n: nat)
    requires wins <= n
    ensures 0.0 <= Round4(Ratio(wins as real, n)) <= 1.0
  {
    if n > 0 {
      RatioBetween(wins as real, n, 0.0, 1.0);
      HalfEvenMonotone(0.0, Ratio(wins as real, n) * 10000.0);
      HalfEvenMonotone(Ratio(wins as real, n) * 10000.0, 10000.0);
    }
  }

  /** Every reported row, rounded as it is: wins and losses are distinct trades, the win rate is a
      rate, and the profit factor is undefined exactly when there is no losing trade. */
  lemma RowCounts(leader: string, rs: seq<real>, last: Option<int>)
    ensures var m := MetricsRow(leader, rs, last);
      && m.wins + m.losses <= m.trades == |rs|
      && 0.0 <= m.winRate <= 1.0
      && (m.profitFactor.None? <==> m.losses == 0)
  {
    WinsAreTrades(rs);
    WinsAndLosses(rs);
    WinRateBetween(|FlatMap(rs, Positive())|, |rs|);
  }

  /** Every reported average, rounded as it is, lies between the worst and the best trade. */
  lemma RowAverage(leader: string, rs: seq<real>, last: Option<int>)
    requires rs != []
    ensures var m := MetricsRow(leader, rs, last); m.worstUsd <= m.avgRealizedUsd <= m.bestUsd
  {
    hide Best, Worst, FlatMap, Sum, HalfEven;
    var average := Ratio(Sum(rs), |rs|);
    AverageBetween(rs);
    HalfEvenMonotone(Worst(rs) * 100.0, average * 100.0);
    HalfEvenMonotone(average * 100.0, Best(rs) * 100.0);
    assert Round2(Worst(rs)) <= Round2(average) <= Round2(Best(rs));
  }

  lemma Weight(total: real, winRate: real)
    requires 0.0 <= winRate <= 1.0
    ensures total >= 0.0 ==> total * 0.5 <= Expectancy(total, winRate) <= total
    ensures total <= 0.0 ==> total <= Expectancy(total, winRate) <= total * 0.5
    ensures winRate == 1.0 ==> Expectancy(total, winRate) == total
    ensures winRate == 0.0 ==> Expectancy(total, winRate) == total * 0.5
  {
    assert Expectancy(total, winRate) == total * 0.5 + total * winRate * 0.5;
    if total >= 0.0 {
      assert 0.0 <= total * winRate <= total;
    } else {
      assert total <= total * winRate <= 0.0;
    }
  }

  /** The score weighs the total by win rate: it shows the whole total for a leader who always wins,
      half of it for one who never does, and lies between the two otherwise. */
  predicate ScoreWeighs(m: LeaderMetrics, total: real) {
    var half := Round2(total * 0.5);
    && (m.wins == m.trades ==> m.score == m.totalRealizedUsd)
    && (m.wins == 0 ==> m.score == half)
    && (total >= 0.0 ==> half <= m.score <= m.totalRealizedUsd)
    && (total <= 0.0 ==> m.totalRealizedUsd <= m.score <= half)
  }

  lemma ScoreBetween(m: LeaderMetrics, total: real)
    requires m.wins <= m.trades && m.trades > 0 && m.totalRealizedUsd == Round2(total)
    requires m.score == Round2(Expectancy(total, Ratio(m.wins as real, m.trades)))
    ensures ScoreWeighs(m, total)
  {
    RatioBetween(m.wins as real, m.trades, 0.0, 1.0);
    RatioEnds(m.wins, m.trades);
    WeightRounded(total, Ratio(m.wins as real, m.trades));
  }

  lemma RatioEnds(wins: nat, n: nat)
    requires n > 0
    ensures wins == n ==> Ratio(wins as real, n) == 1.0
    ensures wins == 0 ==> Ratio(wins as real, n) == 0.0
  {
  }

  lemma WeightRounded(total: real, winRate: real)
    requires 0.0 <= winRate <= 1.0
    ensures var (half, score, whole) := (Round2(total * 0.5), Round2(Expectancy(total, winRate)), Round2(total));
      && (total >= 0.0 ==> half <= score <= whole)
      && (total <= 0.0 ==> whole <= score <= half)
      && (winRate == 1.0 ==> score == whole)
      && (winRate == 0.0 ==> score == half)
  {
    Weight(total, winRate);
    RoundsInOrder(total * 0.5, Expectancy(total, winRate));
    RoundsInOrder(Expectancy(total, winRate), total);
  }

  lemma RowScore(leader: string, rs: seq<real>, last: Option<int>)
    requires rs != []
    ensures ScoreWeighs(MetricsRow(leader, rs, last), Sum(rs))
  {
    WinsAreTrades(rs);
    ScoreBetween(MetricsRow(leader, rs, last), Sum(rs));
  }

  lemma RoundsInOrder(x: real, y: real)
    ensures x <= y ==> Round2(x) <= Round2(y)
    ensures y <= x ==> Round2(y) <= Round2(x)
  {
    if x <= y {
      HalfEvenMonotone(x * 100.0, y * 100.0);
    } else {
      HalfEvenMonotone(y * 100.0, x * 100.0);
    }
  }

  // ---------- the shape of the report ----------

  /** The report is ranked by score, and lists each leader with a counted exit exactly once. */
  lemma ReportListsLeadersOnce(events: seq<Event>, cutoff: Option<int>)
    ensures forall i, j :: 0 <= i < j < |Metrics(events, cutoff)| ==>
      Metrics(events, cutoff)[i].score >= Metrics(events, cutoff)[j].score
    ensures Perm(Map(Metrics(events, cutoff), Address()), Keys(ByLeader(events, cutoff)))
    ensures Distinct(Keys(ByLeader(events, cutoff)))
  {
    var rows, metrics := Rows(events, cutoff), Metrics(events, cutoff);
    SortDescIs(rows, MetricsRank(), 0.0);
    MapIsFlatMap(rows, Address());
    MapIsFlatMap(metrics, Address());
    FlatMapPerm(metrics, rows, Single(Address()));
    KeysAre(ByLeader(events, cutoff));
    forall i | 0 <= i < |rows| ensures rows[i].leaderAddress == Keys(ByLeader(events, cutoff))[i] {
      var k := Keys(ByLeader(events, cutoff))[i];
      var cs := Values(ByLeader(events, cutoff), k);
      assert rows[i] == MetricsRow(k, Amounts(cs), Latest(cs));
    }
    assert Map(rows, Address()) == Keys(ByLeader(events, cutoff));
  }
}
