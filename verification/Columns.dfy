/** What the columns of the leader report show, from the log: each position nets its exits, each leader
    has the results of the positions filed under it, and every figure is rounded once, at the end. */
module Columns {
  import opened Wrappers
  import opened Rounding
  import opened Grouping
  import opened Events
  import opened Leaders
  import opened LeaderLaws
  import opened Recommend

  // ---------- a row, from its leader's results ----------

  lemma {:induction false} SignedParts(rs: seq<real>, r: real)
    ensures multiset(FlatMap(rs, Positive()))[r] == if r > 0.0 then multiset(rs)[r] else 0
    ensures multiset(FlatMap(rs, Negative()))[r] == if r < 0.0 then multiset(rs)[r] else 0
  {
    if rs != [] {
      var init, x := rs[..|rs| - 1], rs[|rs| - 1];
      SignedParts(init, r);
      BagLast(rs);
      assert multiset(FlatMap(rs, Positive())) == multiset(FlatMap(init, Positive())) + multiset(Positive()(x));
      assert multiset(FlatMap(rs, Negative())) == multiset(FlatMap(init, Negative())) + multiset(Negative()(x));
    }
  }

  /** `wins` and `losses` are the profits and the losses among `rs`. */
  ghost predicate SplitsBySign(rs: seq<real>, wins: seq<real>, losses: seq<real>) {
    forall r: real ::
      && multiset(wins)[r] == (if r > 0.0 then multiset(rs)[r] else 0)
      && multiset(losses)[r] == (if r < 0.0 then multiset(rs)[r] else 0)
  }

  lemma SignsSplit(rs: seq<real>)
    ensures SplitsBySign(rs, FlatMap(rs, Positive()), FlatMap(rs, Negative()))
  {
    forall r: real
      ensures multiset(FlatMap(rs, Positive()))[r] == if r > 0.0 then multiset(rs)[r] else 0
      ensures multiset(FlatMap(rs, Negative()))[r] == if r < 0.0 then multiset(rs)[r] else 0
    {
      SignedParts(rs, r);
    }
  }

  /** The sums a row shows: total, gross profit, gross loss, largest and smallest result, in cents. */
  ghost predicate ShowsSums(m: LeaderMetrics, rs: seq<real>, wins: seq<real>, losses: seq<real>) {
    && ToCents(m.totalRealizedUsd, Sum(rs))
    && ToCents(m.grossProfitUsd, Sum(wins))
    && ToCents(m.grossLossUsd, -Sum(losses))
    && exists i, j :: 0 <= i < |rs| && 0 <= j < |rs| && (forall k :: 0 <= k < |rs| ==> rs[j] <= rs[k] <= rs[i]) &&
                      ToCents(m.bestUsd, rs[i]) && ToCents(m.worstUsd, rs[j])
  }

  /** A total weighed by half and half the win rate. */
  function Weighed(total: real, winRate: real): real {
    total * (0.5 + 0.5 * winRate)
  }

  /** The quotients it shows: win rate, average result, and the score, which weighs the total by half and
      half the win rate. */
  ghost predicate ShowsRates(m: LeaderMetrics, rs: seq<real>, wins: seq<real>)
    requires rs != []
  {
    var winRate := |wins| as real / |rs| as real;
    && ToTenThousandths(m.winRate, winRate)
    && ToCents(m.avgRealizedUsd, Sum(rs) / |rs| as real)
    && ToCents(m.score, Weighed(Sum(rs), winRate))
  }

  /** The average profit and loss, zero when there is none, and the profit factor, undefined when there
      is no loss. */
  ghost predicate ShowsParts(m: LeaderMetrics, wins: seq<real>, losses: seq<real>) {
    && (if wins == [] then m.avgWinUsd == 0.0 else ToCents(m.avgWinUsd, Sum(wins) / |wins| as real))
    && (if losses == [] then m.avgLossUsd == 0.0 && m.profitFactor == None
        else
          && ToCents(m.avgLossUsd, Sum(losses) / |losses| as real)
          && Sum(losses) < 0.0 && m.profitFactor.Some?
          && ToThousandths(m.profitFactor.value, Sum(wins) / -Sum(losses)))
  }

  /** Everything a row shows of the results `rs`. */
  ghost predicate Shows(m: LeaderMetrics, rs: seq<real>) {
    exists wins, losses ::
      && SplitsBySign(rs, wins, losses)
      && rs != [] && m.trades == |rs| && m.wins == |wins| && m.losses == |losses|
      && ShowsSums(m, rs, wins, losses) && ShowsRates(m, rs, wins) && ShowsParts(m, wins, losses)
  }

  lemma RowShowsSums(leader: string, rs: seq<real>, last: Option<int>)
    requires rs != []
    ensures ShowsSums(MetricsRow(leader, rs, last), rs, FlatMap(rs, Positive()), FlatMap(rs, Negative()))
  {
    hide ToCents, ToThousandths, ToTenThousandths, HalfEven, Round2, Round3, Round4;
    hide FlatMap, Sum, Best, Worst, Expectancy, Ratio;
    RoundsAre(Sum(rs));
    RoundsAre(Sum(FlatMap(rs, Positive())));
    RoundsAre(-Sum(FlatMap(rs, Negative())));
    RoundsAre(Best(rs));
    RoundsAre(Worst(rs));
    BestIs(rs);
    var i :| 0 <= i < |rs| && rs[i] == Best(rs);
    var j :| 0 <= j < |rs| && rs[j] == Worst(rs);
    forall k | 0 <= k < |rs| ensures rs[j] <= rs[k] <= rs[i] {
      assert rs[k] in rs;
    }
  }

  lemma ScoreRounds(total: real, winRate: real)
    ensures ToCents(Round2(Expectancy(total, winRate)), Weighed(total, winRate))
  {
    hide ToCents, ToThousandths, ToTenThousandths, HalfEven, Round2;
    assert Expectancy(total, winRate) == Weighed(total, winRate);
    RoundsAre(Weighed(total, winRate));
  }

  lemma RowShowsRates(leader: string, rs: seq<real>, last: Option<int>)
    requires rs != []
    ensures ShowsRates(MetricsRow(leader, rs, last), rs, FlatMap(rs, Positive()))
  {
    hide ToCents, ToThousandths, ToTenThousandths, HalfEven, Round2, Round3, Round4;
    hide FlatMap, Sum, Best, Worst, Expectancy, Weighed;
    var winRate, average := Ratio(|FlatMap(rs, Positive())| as real, |rs|), Ratio(Sum(rs), |rs|);
    RoundsAre(winRate);
    RoundsAre(average);
    ScoreRounds(Sum(rs), winRate);
  }

  lemma {:induction false} LossesAreNegative(rs: seq<real>)
    ensures FlatMap(rs, Negative()) != [] ==> Sum(FlatMap(rs, Negative())) < 0.0
    ensures FlatMap(rs, Negative()) == [] ==> Sum(FlatMap(rs, Negative())) == 0.0
  {
    if rs != [] {
      var init, r := rs[..|rs| - 1], rs[|rs| - 1];
      LossesAreNegative(init);
      SumConcat(FlatMap(init, Negative()), Negative()(r));
      OneTrade(r);
      SumSnoc([], r);
      assert [] + [r] == [r];
    }
  }

  lemma ZeroRounds()
    ensures Round2(0.0) == 0.0
  {
  }

  lemma RowShowsParts(leader: string, rs: seq<real>, last: Option<int>)
    requires rs != []
    ensures ShowsParts(MetricsRow(leader, rs, last), FlatMap(rs, Positive()), FlatMap(rs, Negative()))
  {
    hide ToCents, ToThousandths, ToTenThousandths, HalfEven, Round2, Round3, Round4;
    hide FlatMap, Sum, Best, Worst, Expectancy;
    var wins, losses := FlatMap(rs, Positive()), FlatMap(rs, Negative());
    LossesAreNegative(rs);
    ZeroRounds();
    if wins != [] {
      RoundsAre(Sum(wins) / |wins| as real);
    }
    if losses != [] {
      RoundsAre(Sum(losses) / |losses| as real);
      RoundsAre(Sum(wins) / -Sum(losses));
    }
  }

  lemma RowShows(leader: string, rs: seq<real>, last: Option<int>)
    requires rs != []
    ensures Shows(MetricsRow(leader, rs, last), rs)
  {
    hide ShowsSums, ShowsRates, ShowsParts, SplitsBySign;
    SignsSplit(rs);
    RowShowsSums(leader, rs, last);
    RowShowsRates(leader, rs, last);
    RowShowsParts(leader, rs, last);
    assert SplitsBySign(rs, FlatMap(rs, Positive()), FlatMap(rs, Negative()));
  }

  // ---------- the results, from the log ----------

  /** Two flattening maps in a row are one. */
  lemma {:induction false} FlatMapFlat<A, B, C>(s: seq<A>, f: A -> seq<B>, g: B -> seq<C>, h: A -> seq<C>)
    requires forall i :: 0 <= i < |s| ==> FlatMap(f(s[i]), g) == h(s[i])
    ensures FlatMap(FlatMap(s, f), g) == FlatMap(s, h)
  {
    if s != [] {
      var init, x := s[..|s| - 1], s[|s| - 1];
      FlatMapFlat(init, f, g, h);
      FlatMapConcat(FlatMap(init, f), f(x), g);
    }
  }

  function ChunkAt(leaders: map<string, string>, cutoff: Option<int>, pid: string): Event -> seq<Chunk> {
    (ev: Event) =>
      if Counts(leaders, cutoff, ev) && ev.positionId == pid then [Chunk(ev.realized.x, ev.ts)] else []
  }

  function AmountAt(leaders: map<string, string>, cutoff: Option<int>, pid: string): Event -> seq<real> {
    (ev: Event) => if Counts(leaders, cutoff, ev) && ev.positionId == pid then [ev.realized.x] else []
  }

  /** What a position's counted exits come to. */
  function PositionTotal(events: seq<Event>, cutoff: Option<int>, pid: string): real {
    Sum(FlatMap(events, AmountAt(PosLeader(events), cutoff, pid)))
  }

  function ResultAt(events: seq<Event>, cutoff: Option<int>, leader: string): string -> seq<real> {
    (pid: string) => if LeaderIn(PosLeader(events), pid) == leader then [PositionTotal(events, cutoff, pid)] else []
  }

  /** A leader's results: one a position, in order of the position's first counted exit. */
  function Results(events: seq<Event>, cutoff: Option<int>, leader: string): seq<real> {
    FlatMap(Keys(Joined(events, cutoff)), ResultAt(events, cutoff, leader))
  }

  lemma PositionAmounts(events: seq<Event>, cutoff: Option<int>, pid: string)
    ensures Sum(Amounts(Values(Joined(events, cutoff), pid))) == PositionTotal(events, cutoff, pid)
  {
    var leaders := PosLeader(events);
    var join, at := Join(leaders, cutoff), ChunkAt(leaders, cutoff, pid);
    forall i | 0 <= i < |events| ensures FlatMap(join(events[i]), ValueAt(pid)) == at(events[i]) {
      JoinAt(leaders, cutoff, pid, events[i]);
    }
    FlatMapFlat(events, join, ValueAt(pid), at);
    forall i | 0 <= i < |events|
      ensures FlatMap(at(events[i]), AmountOf()) == AmountAt(leaders, cutoff, pid)(events[i])
    {
      AmountOfChunk(leaders, cutoff, pid, events[i]);
    }
    FlatMapFlat(events, at, AmountOf(), AmountAt(leaders, cutoff, pid));
  }

  lemma JoinAt(leaders: map<string, string>, cutoff: Option<int>, pid: string, ev: Event)
    ensures FlatMap(Join(leaders, cutoff)(ev), ValueAt(pid)) == ChunkAt(leaders, cutoff, pid)(ev)
  {
    if Counts(leaders, cutoff, ev) {
      FlatMapOne((ev.positionId, Chunk(ev.realized.x, ev.ts)), ValueAt<string, Chunk>(pid));
    }
  }

  lemma AmountOfChunk(leaders: map<string, string>, cutoff: Option<int>, pid: string, ev: Event)
    ensures FlatMap(ChunkAt(leaders, cutoff, pid)(ev), AmountOf()) == AmountAt(leaders, cutoff, pid)(ev)
  {
    if Counts(leaders, cutoff, ev) && ev.positionId == pid {
      FlatMapOne(Chunk(ev.realized.x, ev.ts), AmountOf());
    }
  }

  function Filed(items: seq<(string, Chunk)>, leaders: map<string, string>): string -> seq<(string, Chunk)> {
    (pid: string) => [(LeaderIn(leaders, pid), Net()(pid, Values(items, pid)))]
  }

  function FiledUnder(items: seq<(string, Chunk)>, leaders: map<string, string>, leader: string): string -> seq<Chunk> {
    (pid: string) => if LeaderIn(leaders, pid) == leader then [Net()(pid, Values(items, pid))] else []
  }

  lemma OnePosition(events: seq<Event>, cutoff: Option<int>, leader: string, pid: string)
    ensures var (items, leaders) := (Joined(events, cutoff), PosLeader(events));
      && FlatMap(EntryOf(items, Net())(pid), WithLeader(leaders)) == Filed(items, leaders)(pid)
      && FlatMap(Filed(items, leaders)(pid), ValueAt(leader)) == FiledUnder(items, leaders, leader)(pid)
      && FlatMap(FiledUnder(items, leaders, leader)(pid), AmountOf()) == ResultAt(events, cutoff, leader)(pid)
  {
    var (items, leaders) := (Joined(events, cutoff), PosLeader(events));
    var c := Net()(pid, Values(items, pid));
    FlatMapOne((pid, c), WithLeader(leaders));
    FlatMapOne((LeaderIn(leaders, pid), c), ValueAt<string, Chunk>(leader));
    FlatMapOne(c, AmountOf());
    PositionAmounts(events, cutoff, pid);
  }

  /** What the report files under a leader is the leader's results. */
  lemma FiledResults(events: seq<Event>, cutoff: Option<int>, leader: string)
    ensures Amounts(Values(ByLeader(events, cutoff), leader)) == Results(events, cutoff, leader)
  {
    var (items, leaders) := (Joined(events, cutoff), PosLeader(events));
    var keys := Keys(items);
    forall i | 0 <= i < |keys|
      ensures FlatMap(EntryOf(items, Net())(keys[i]), WithLeader(leaders)) == Filed(items, leaders)(keys[i])
      ensures FlatMap(Filed(items, leaders)(keys[i]), ValueAt(leader)) == FiledUnder(items, leaders, leader)(keys[i])
      ensures FlatMap(FiledUnder(items, leaders, leader)(keys[i]), AmountOf()) ==
        ResultAt(events, cutoff, leader)(keys[i])
    {
      OnePosition(events, cutoff, leader, keys[i]);
    }
    GroupedIs(items, Net());
    FlatMapFlat(keys, EntryOf(items, Net()), WithLeader(leaders), Filed(items, leaders));
    FlatMapFlat(keys, Filed(items, leaders), ValueAt(leader), FiledUnder(items, leaders, leader));
    FlatMapFlat(keys, FiledUnder(items, leaders, leader), AmountOf(), ResultAt(events, cutoff, leader));
  }

  /** Main result: every row of the report shows the results of its leader as the log has them. */
  lemma ReportShowsLog(events: seq<Event>, cutoff: Option<int>, row: LeaderMetrics)
    requires row in Metrics(events, cutoff)
    ensures Shows(row, Results(events, cutoff, row.leaderAddress))
  {
    hide Shows, MetricsRow;
    ReportRows(events, cutoff, row);
    var i :| 0 <= i < |Rows(events, cutoff)| && Rows(events, cutoff)[i] == row;
    var items := ByLeader(events, cutoff);
    var leader := Keys(items)[i];
    var rs := Amounts(Values(items, leader));
    assert row == MetricsRow(leader, rs, Latest(Values(items, leader)));
    NoValues(items, leader);
    AmountsLength(Values(items, leader));
    RowShows(leader, rs, Latest(Values(items, leader)));
    RowNames(leader, rs, Latest(Values(items, leader)));
    FiledResults(events, cutoff, leader);
  }

  lemma RowNames(leader: string, rs: seq<real>, last: Option<int>)
    ensures MetricsRow(leader, rs, last).leaderAddress == leader
    ensures MetricsRow(leader, rs, last).lastExitTs == last
  {
  }

  /** So does every row of the scoring script, in the columns it has. */
  lemma ScoresShowLog(events: seq<Event>, row: LeaderScore)
    requires row in Scores(events)
    ensures exists m: LeaderMetrics ::
      && Shows(m, Results(events, None, row.leaderAddress)) && m.leaderAddress == row.leaderAddress
      && row == LeaderScore(m.leaderAddress, m.trades, m.wins, m.winRate, m.totalRealizedUsd, m.avgRealizedUsd, m.score)
  {
    hide Shows, Metrics, Scores, Results;
    ReportsAgree(events);
    var metrics := Metrics(events, None);
    var i :| 0 <= i < |Scores(events)| && Scores(events)[i] == row;
    assert row == AsScore()(metrics[i]);
    ReportShowsLog(events, None, metrics[i]);
  }

  // ---------- the last exit of a row ----------

  lemma {:induction false} JoinedMember(events: seq<Event>, leaders: map<string, string>, cutoff: Option<int>,
                                        pid: string, c: Chunk)
    ensures (pid, c) in FlatMap(events, Join(leaders, cutoff)) <==>
      exists ev :: ev in events && Join(leaders, cutoff)(ev) == [(pid, c)]
  {
    if events != [] {
      var init, last := events[..|events| - 1], events[|events| - 1];
      JoinedMember(init, leaders, cutoff, pid, c);
      assert forall ev :: ev in events <==> ev in init || ev == last;
    }
  }

  /** Some counted exit of the position is later than `now`; some counted exit of the leader is. */
  ghost predicate PositionExitsAfter(events: seq<Event>, cutoff: Option<int>, pid: string, now: int) {
    exists ev :: ev in events && Counts(PosLeader(events), cutoff, ev) && ev.positionId == pid && After(ev.ts, now)
  }

  ghost predicate LeaderExitsAfter(events: seq<Event>, cutoff: Option<int>, leader: string, now: int) {
    exists ev :: ev in events && Counts(PosLeader(events), cutoff, ev) &&
                 PosLeader(events)[ev.positionId] == leader && After(ev.ts, now)
  }

  lemma PositionLatest(events: seq<Event>, cutoff: Option<int>, pid: string, now: int)
    ensures After(Latest(Values(Joined(events, cutoff), pid)), now) <==> PositionExitsAfter(events, cutoff, pid, now)
  {
    var leaders := PosLeader(events);
    GroupLater(Joined(events, cutoff), pid, now);
    if c :| (pid, c) in Joined(events, cutoff) && After(c.ts, now) {
      JoinedMember(events, leaders, cutoff, pid, c);
      var ev :| ev in events && Join(leaders, cutoff)(ev) == [(pid, c)];
      assert [(pid, c)][0] == Join(leaders, cutoff)(ev)[0];
      assert Counts(leaders, cutoff, ev) && ev.positionId == pid && After(ev.ts, now);
    }
    if ev :| ev in events && Counts(leaders, cutoff, ev) && ev.positionId == pid && After(ev.ts, now) {
      JoinedMember(events, leaders, cutoff, pid, Chunk(ev.realized.x, ev.ts));
    }
  }

  lemma {:induction false} FiledMember(positions: seq<(string, Chunk)>, leaders: map<string, string>, leader: string,
                                       c: Chunk)
    ensures (leader, c) in FlatMap(positions, WithLeader(leaders)) <==>
      exists i :: 0 <= i < |positions| && LeaderIn(leaders, positions[i].0) == leader && positions[i].1 == c
  {
    if positions != [] {
      var n := |positions| - 1;
      var init := positions[..n];
      FiledMember(init, leaders, leader, c);
      assert forall i :: 0 <= i < n ==> init[i] == positions[i];
      LastWithLeader(positions, leaders);
      assert positions[n].1 == c && LeaderIn(leaders, positions[n].0) == leader <==>
        (leader, c) == (LeaderIn(leaders, positions[n].0), positions[n].1);
    }
  }

  lemma PositionsAre(events: seq<Event>, cutoff: Option<int>)
    ensures var (positions, items) := (Positions(events, cutoff), Joined(events, cutoff));
      var ks := Keys(items);
      && |positions| == |ks|
      && forall i :: 0 <= i < |ks| ==> positions[i].0 == ks[i] && positions[i].1.ts == Latest(Values(items, ks[i]))
  {
  }

  lemma LeaderLatest(events: seq<Event>, cutoff: Option<int>, leader: string, now: int)
    ensures After(Latest(Values(ByLeader(events, cutoff), leader)), now) <==>
      exists i :: 0 <= i < |Keys(Joined(events, cutoff))| &&
                  LeaderIn(PosLeader(events), Keys(Joined(events, cutoff))[i]) == leader &&
                  After(Latest(Values(Joined(events, cutoff), Keys(Joined(events, cutoff))[i])), now)
  {
    hide Positions, Joined, Keys, Latest, Values, LeaderIn, Net, FlatMap, PosLeader;
    var (positions, leaders) := (Positions(events, cutoff), PosLeader(events));
    var (items, ks) := (Joined(events, cutoff), Keys(Joined(events, cutoff)));
    PositionsAre(events, cutoff);
    GroupLater(ByLeader(events, cutoff), leader, now);
    if c :| (leader, c) in ByLeader(events, cutoff) && After(c.ts, now) {
      FiledMember(positions, leaders, leader, c);
    }
    if i :| 0 <= i < |ks| && LeaderIn(leaders, ks[i]) == leader && After(Latest(Values(items, ks[i])), now) {
      FiledMember(positions, leaders, leader, positions[i].1);
    }
  }

  /** The last exit a row shows is the latest of its leader's counted exits: it is later than a given
      time exactly if one of those is. */
  lemma LastExitFromLog(events: seq<Event>, cutoff: Option<int>, row: LeaderMetrics, now: int)
    requires row in Metrics(events, cutoff)
    ensures After(row.lastExitTs, now) <==> LeaderExitsAfter(events, cutoff, row.leaderAddress, now)
  {
    var leader := RowLast(events, cutoff, row);
    var ks, leaders := Keys(Joined(events, cutoff)), PosLeader(events);
    LeaderLatest(events, cutoff, leader, now);
    forall pid ensures After(Latest(Values(Joined(events, cutoff), pid)), now) <==>
                       PositionExitsAfter(events, cutoff, pid, now)
    {
      PositionLatest(events, cutoff, pid, now);
    }
    if i :| 0 <= i < |ks| && LeaderIn(leaders, ks[i]) == leader && PositionExitsAfter(events, cutoff, ks[i], now) {
      assert LeaderExitsAfter(events, cutoff, leader, now);
    }
    if ev :| ev in events && Counts(leaders, cutoff, ev) && leaders[ev.positionId] == leader && After(ev.ts, now) {
      JoinedPositions(events, leaders, cutoff, ev.positionId);
      var i :| 0 <= i < |ks| && ks[i] == ev.positionId;
      assert LeaderIn(leaders, ks[i]) == leader && PositionExitsAfter(events, cutoff, ks[i], now);
    }
  }

  lemma RowLast(events: seq<Event>, cutoff: Option<int>, row: LeaderMetrics) returns (leader: string)
    requires row in Metrics(events, cutoff)
    ensures leader == row.leaderAddress && row.lastExitTs == Latest(Values(ByLeader(events, cutoff), leader))
  {
    hide MetricsRow;
    ReportRows(events, cutoff, row);
    var i :| 0 <= i < |Rows(events, cutoff)| && Rows(events, cutoff)[i] == row;
    var items := ByLeader(events, cutoff);
    leader := Keys(items)[i];
    RowNames(leader, Amounts(Values(items, leader)), Latest(Values(items, leader)));
  }
}
